# Advent of Code 2023 solvers, modelled in Dafny

This project models the daily puzzle solvers of the AdventOfCode23 repository. Each day's solver
parses a small text and computes an integer from it. Every solver is modelled except day 24, whose
core is floating point, and the drivers that read `input.txt` and print. Each day is its own Dafny
module, `DayNN<Topic>`, in `dayNN_<topic>.dfy`. Days 08, 10, 18, 21 and 22 span several modules,
one per source file or stage:

- 01: digits (`readLines.py`), spelled digits (`readLinesTwo.py`) and the Rust twin.
- 02: games. 03: the part-number map. 04: scratch cards. 05: almanac range maps. 06: boat races.
  07: camel-card hands. 09: difference sequences.
- 08: the hashed C++ graph, the Python node tree, and the Python waypoint fixpoint.
- 10: the pipe loop (`Day10Pipes`) and the doubled map with its regions (`Day10Regions`).
- 11: universe expansion. 12: spring arrangements. 13: mirrors. 14: rock tilting. 15: the hash.
  16: light beams. 17: one step of the path search. 18: the flood-filled dig (`dig.py`) and the
  polygon (`part2.py`). 19: workflows. 20: pulse modules. 21: the C++ bit grid and the Python
  step counter. 22: falling bricks (bricks, layers, falling and the map class).

The day modules are built on a few shared ones:

- `Wrappers`: `Option` and `Result`. A Python exception becomes `Err(name)`. A C++ throw or a Rust
  panic becomes `Err` in the same way.
- `Strings`: the parts of Python's `str` the solvers use, on ASCII: `split`, `strip`,
  `splitlines`, `find`, `replace` and `int()`.
- `Numbers` and `Lines`: blank-separated integer lists and line lists that tolerate blank lines,
  with their written forms. Parsers can then be proved to read back what a rendering writes.
- `Lists`, `Sorting` (a sort by an integer key, like Python's `sorted`), `Geometry` (2-D integer
  vectors and grid neighbours) and `Chains` (first hits along a successor function).

Pure code is modelled as functions and lemmas. Loops become methods with loop invariants, proved
against a specification function. Objects whose fields the source updates in place become classes.
Some asserts in the source files' `__main__` blocks are proved as lemmas. The table names them.
The others are listed under "Left out".

## Model

| member | source | states |
|---|---|---|
| Wrappers.MapAll | 04/card.py:26-27 | a comprehension whose body may raise maps every element in order, or fails with the first element's error |
| Wrappers.MapAllAppend | 04/card.py:26-27 | mapping a concatenation: the first part's error, else the second's, else both results in order |
| Strings.NatToStringRoundTrip | 04/card.py:23 | `int(str(n)) == n` for every natural number |
| Strings.IntToStringRoundTrip | 09/seq.py:2 | `int(str(i)) == i`, negative numbers included |
| Strings.Find | 01/readLinesTwo.py:7-10 | `find` gives the first occurrence at or after the start, or -1 when there is none |
| Strings.ReplaceChar | 02/solution.py:38 | every `a` becomes `b` and every other character stays |
| Strings.Split | 02/solution.py:36-39 | the pieces joined with the separator give the text back, and no piece holds the separator |
| Strings.SplitJoin | 02/solution.py:36-39 | splitting undoes joining when the parts hold no separator |
| Strings.SplitOnJoin | 13/mirrors.py:57 | `split(c)` undoes `c.join(parts)` when no part contains `c` |
| Strings.SplitWs | 18/dig.py:49 | every piece of `split()` is a non-empty run of non-blank characters |
| Strings.SplitWsCons | 18/dig.py:49 | a word followed by a blank splits off as the first piece |
| Strings.StripChars | 02/solution.py:42 | the stripped text is empty or neither starts nor ends with a stripped character |
| Strings.SplitLines | 17/path.py:106 | the lines hold no line break |
| Numbers.ReadInts | 04/card.py:26-27 | the comprehension reads every piece with `int`, or fails with the first `ValueError` |
| Numbers.ReadLayout | 04/card.py:26 | splitting on blanks, dropping empty pieces and reading the rest gives back a written list's numbers |
| Numbers.ReadLayoutStripped | 04/card.py:27 | the same with each piece stripped first |
| Lines.NonBlankSnoc | 09/seq.py:6 | one more line is kept, at the end, exactly when it is not blank once stripped |
| Lines.ReadFramed | 09/seq.py:5-6 | reading the non-blank lines of a written text gives back the written lines |
| Lists.FirstIndex | 14/tilt.py:67 | `index` is the position of the first element equal to the one sought |
| Lists.RemoveFirst | 13/mirrors.py:48-52 | `remove` drops the first equal element and keeps the order of the rest |
| Lists.Max | 22/bricks.py:93-100 | `max` is in the list and no element exceeds it |
| Lists.Min | 18/dig.py:68-69 | `min` is in the list and no element is below it |
| Lists.Filter | 02/solution.py:45-47 | the comprehension keeps no more elements than the list has, each one passing |
| Lists.FilterMembers | 02/solution.py:45-47 | an element is kept iff it is listed and passes |
| Lists.SumOfPermutation | 07/cards.py:93 | a sum does not depend on the order of its summands |
| Sorting.SortBy | 22/bricks.py:86 | `sort(key=...)` gives a permutation of the list |
| Sorting.SortBySorted | 22/bricks.py:86 | the result is sorted by key |
| Sorting.SortByUnique | 07/cards.py:93 | with distinct keys the sorted order is the only strictly sorted rearrangement |
| Sorting.RankSorted | 07/cards.py:93-96 | in a strictly sorted list the element at i has rank i + 1 |
| Geometry.Neighbors | 10/mypipes.py:55-58 | at most four, exactly the in-bounds positions next to the given one |
| Chains.HitsAtFollow | 08/part2.py:34-43 | the first hit is k steps away iff the goal holds after k steps and at none before |
| Day01Digits.Digits | 01/readLines.py:2-3 | the filtered characters are digits, no more than the line holds |
| Day01Digits.ReadLine | 01/readLines.py:1-10 | the iterator loop yields the calibration value: ten times the first digit plus the last, StopIteration when there is no digit |
| Day01Digits.ReadLines | 01/readLines.py:13-14 | succeeds iff every line has a digit, and then holds each line's value in order |
| Day01Digits.DigitsFirst | 01/readLines.py:4 | the first digit taken is the leftmost digit of the line |
| Day01Digits.DigitsLast | 01/readLines.py:7-9 | the last digit taken is the rightmost digit of the line |
| Day01Digits.CalibrationSpec | 01/readLines.py:1-10 | with leftmost digit at i and rightmost at j the value is 10·line[i] + line[j] |
| Day01Digits.CalibrationNone | 01/readLines.py:4 | the line fails exactly when it holds no digit |
| Day01Digits.SingleDigit | 01/readLines.py:5 | a single digit is used twice: the value is 11 times it |
| Day01Digits.Examples | 01/readLines.py:18-23 | the asserted values 11, 12, 13, 14 for the four sample lines |
| Day01Rust.ParseI32 | 01/rs/src/main.rs:25 | a parsed value fits in 32 bits |
| Day01Rust.ParseLine | 01/rs/src/main.rs:3-19 | the loop returns (first digit, last digit), or (-1, -1) for a line without digits |
| Day01Rust.CombineDigitsValue | 01/rs/src/main.rs:21-26 | on two digits, concatenating and parsing gives 10·first + last |
| Day01Rust.CombineNoDigits | 01/rs/src/main.rs:25 | the no-digit pair (-1, -1) makes `unwrap` panic |
| Day01Rust.AgreesWithPython | 01/rs/src/main.rs:3-26 | the Rust pipeline fails on the same lines as the Python `readLine` |
| Day01Rust.SingleDigit | 01/rs/src/main.rs:10-13 | with exactly one digit both components are that digit |
| Day01Spelled.NamedAt | 01/readLinesTwo.py:1-17 | the digit a position names, 0 exactly when no word or numeral starts there |
| Day01Spelled.NamedAtNames | 01/readLinesTwo.py:1-17 | with unambiguous words the named digit is the one the word or numeral stands for |
| Day01Spelled.SpelledNamesUnique | 01/readLinesTwo.py:1 | no position of a line names two different digits with the nine English words |
| Day01Spelled.SpelledWords | 01/readLinesTwo.py:1 | the word list has nine non-empty, unambiguous words |
| Day01Spelled.WordIndex | 01/readLinesTwo.py:21 | `spelled.index` of the v-th word is v-1 |
| Day01Spelled.FirstNamed | 01/readLinesTwo.py:23-25 | the leftmost position in a range that names a digit, none before it |
| Day01Spelled.LastNamed | 01/readLinesTwo.py:23-26 | the rightmost position that names a digit, none after it |
| Day01Spelled.CalibrationOfSpec | 01/readLinesTwo.py:23-27 | fails exactly when nothing is named; otherwise the value lies in 11..99 |
| Day01Spelled.CalibrationSpec | 01/readLinesTwo.py:23-27 | the same for the English words: fails iff no position names a digit, else 11..99 |
| Day01Spelled.OccurrencesSpec | 01/readLinesTwo.py:7-10 | a match is listed iff the word occurs there, at or after the start |
| Day01Spelled.OccurrencesAt | 01/readLinesTwo.py:9 | `find` from an occurrence returns it, and it heads the list of later occurrences |
| Day01Spelled.OccurrencesResume | 01/readLinesTwo.py:8-10 | resuming the search at i+1 after a hit at i lists the same occurrences |
| Day01Spelled.AppendOccurrences | 01/readLinesTwo.py:7-10 | the inner while loop appends every occurrence of the word, overlaps included, left to right |
| Day01Spelled.AllOccurrencesSpec | 01/readLinesTwo.py:6-17 | a pair is collected iff its word is in the list and occurs at its position |
| Day01Spelled.Numerals | 01/readLinesTwo.py:13-14 | the numerals searched are "1".."9" in order |
| Day01Spelled.FindMatches | 01/readLinesTwo.py:5-17 | the two search loops collect every word occurrence and every numeral occurrence |
| Day01Spelled.CollectMatches | 01/readLinesTwo.py:19-23 | the combined matches are exactly the positions that name a digit, with its numeral |
| Day01Spelled.ReadLineWith | 01/readLinesTwo.py:4-27 | for any unambiguous word list `readLine` is the leftmost/rightmost calibration |
| Day01Spelled.NumeralsParse | 01/readLinesTwo.py:27 | `int` reads back every numeral |
| Day01Spelled.ReadLine | 01/readLinesTwo.py:4-27 | `readLine` equals the reference calibration of the line |
| Day01Spelled.ReadLinesWith | 01/readLinesTwo.py:30-31 | the comprehension succeeds iff every line does, with each line's value in order |
| Day01Spelled.ReadLines | 01/readLinesTwo.py:30-31 | the same for the English words |
| Day01Spelled.FoundAll | 01/readLinesTwo.py:19-23 | collected and converted matches are exactly the named positions |
| Day01Spelled.FoundSound | 01/readLinesTwo.py:19-23 | every collected match names its digit |
| Day01Spelled.NumeralSound | 01/readLinesTwo.py:12-17 | a numeral match names its digit |
| Day01Spelled.WordSound | 01/readLinesTwo.py:19-21 | a converted word match names its digit |
| Day01Spelled.ConvertedSound | 01/readLinesTwo.py:19-21 | a match from the converted word list names its digit |
| Day01Spelled.FoundComplete | 01/readLinesTwo.py:19-23 | every named position is among the collected matches |
| Day01Spelled.NumeralComplete | 01/readLinesTwo.py:12-17 | every numeral occurrence is collected |
| Day01Spelled.WordComplete | 01/readLinesTwo.py:5-10 | every word occurrence is collected and converted |
| Day01Spelled.SortedEnds | 01/readLinesTwo.py:23-27 | after sorting by position the first and last entries give the reference value |
| Day01Spelled.EndsValue | 01/readLinesTwo.py:25-27 | the value is 10·(digit at the leftmost match) + (digit at the rightmost) |
| Day01Spelled.NoneFound | 01/readLinesTwo.py:25 | no match: `numbers[0]` raises IndexError |
| Day01Spelled.EndsFirst | 01/readLinesTwo.py:23-25 | the first sorted entry is at the leftmost named position |
| Day01Spelled.EndsLast | 01/readLinesTwo.py:23-26 | the last sorted entry is at the rightmost named position |
| Day01Spelled.OfEnds | 01/readLinesTwo.py:25-27 | the value from the two extreme named positions |
| Day01Spelled.NothingAt | 01/readLinesTwo.py:6-17 | a position with no word and no digit names nothing |
| Day01Spelled.One | 01/readLinesTwo.py:35 | `readLine("one") == 11` |
| Day01Spelled.Sevenine | 01/readLinesTwo.py:40 | `readLine("sevenine") == 79`: overlapping words both count |
| Day01Spelled.OneTwo | 01/readLinesTwo.py:36 | `readLine("onetwo") == 12` |
| Day01Spelled.Three | 01/readLinesTwo.py:37 | `readLine("three") == 33`: one word gives both digits |
| Day01Spelled.OneNumeralTwo | 01/readLinesTwo.py:38 | `readLine("1two") == 12`: a numeral and a word mix |
| Day01Spelled.OneNumeralTwoThree | 01/readLinesTwo.py:39 | `readLine("1twothree") == 13` |
| Day01Spelled.SevenineOneTwoThree | 01/readLinesTwo.py:42 | `readLine("sevenineonetwothree") == 73` |
| Day01Spelled.SixThreeTwo | 01/readLinesTwo.py:43 | `readLine("sixthree2") == 62` |
| Day01Spelled.TwoOneNine | 01/readLinesTwo.py:46 | the first sample line `two1nine` is worth 29 |
| Day01Spelled.EightTwoThree | 01/readLinesTwo.py:47 | `eightwothree` is worth 83: overlapping words both count |
| Day01Spelled.AbcOneTwoThree | 01/readLinesTwo.py:48 | `abcone2threexyz` is worth 13 |
| Day01Spelled.TwoOneThreeFour | 01/readLinesTwo.py:49 | `xtwone3four` is worth 24 |
| Day01Spelled.FourNineEightSevenTwo | 01/readLinesTwo.py:50 | `4nineeightseven2` is worth 42 |
| Day01Spelled.OneEightTwoThreeFour | 01/readLinesTwo.py:51 | `zoneight234` is worth 14 |
| Day01Spelled.SevenSixteen | 01/readLinesTwo.py:52 | `7pqrstsixteen` is worth 76 |
| Day01Spelled.SampleTotal | 01/readLinesTwo.py:45-57 | each of the seven sample lines reads as 29, 83, 13, 24, 42, 14, 76, and these add up to the asserted 281 |
| Day02Games.GetColor | 02/solution.py:23-32 | a colour is read only from its own name; any other word raises |
| Day02Games.GetColorName | 02/solution.py:23-32 | `getColor` reads back each colour's name |
| Day02Games.SelectSpec | 02/solution.py:45-47 | the counts of one colour: every listed count comes from a draw of that colour, and every such draw is listed |
| Day02Games.RenderedDraws | 02/solution.py:39-43 | the written draws, one " <count> <colour>" piece per draw |
| Day02Games.ReadDrawRender | 02/solution.py:42-43 | a written draw reads back as its colour and count |
| Day02Games.ReadDrawOf | 02/solution.py:42-43 | a piece reads as the draw its stripped halves name |
| Day02Games.DrawWords | 02/solution.py:42 | a written draw, stripped and split on blanks, gives the count and the colour name |
| Day02Games.ReadDrawsRender | 02/solution.py:41-43 | the loop reads back every draw of a written list, in order |
| Day02Games.ReadGameRender | 02/solution.py:35-48 | a written game line reads back as its index and each colour's counts in text order, with `;` read as `,` |
| Day02Games.ReadGameOf | 02/solution.py:35-48 | the game read from the header index and the draws of the body |
| Day02Games.BodyChars | 02/solution.py:36-38 | a written body holds no `:` and no `;` |
| Day02Games.GameLineParts | 02/solution.py:36 | the line splits at its only colon into header and body |
| Day02Games.HeaderNumber | 02/solution.py:37 | the second word of the header is the game index |
| Day02Games.BodyDraws | 02/solution.py:38-43 | the body's pieces read back as its draws |
| Day02Games.Above | 02/solution.py:52-54 | the filter keeps exactly the counts above the bound |
| Day02Games.IsPossibleFits | 02/solution.py:51-56 | a game is possible iff no red exceeds 12, no green 13 and no blue 14 |
| Day02Games.AboveEmpty | 02/solution.py:56 | nothing is above the bound iff every count is at most the bound |
| Day02Games.PossibleIndices | 02/solution.py:59-60 | the listed indices are exactly those of the possible games |
| Day02Games.PossibleIndicesSumSnoc | 02/solution.py:63-64 | one more game adds its index to the sum iff it is possible |
| Day02Games.FindPower | 02/solution.py:67-68 | `max` fails iff some colour list is empty |
| Day02Games.PowerFactorsFewestCubes | 02/solution.py:67-68 | the factors of the power are the fewest cubes of each colour that make the game possible |
| Day02Games.FindPowerSum | 02/solution.py:71-72 | the sum fails iff some game's power does |
| Day02Games.PossibleExamples | 02/solution.py:83-86 | game 1 is impossible and game 2 possible |
| Day02Games.PowerExamples | 02/solution.py:88-89 | the powers 26 and 20 |
| Day02Games.PowerOfGameOne | 02/solution.py:76-90 | the first sample line parses to game 1 with red 10, 4, 5, 10, 19, green 7, 4, 1, 1 and blue 3, 7, 8, 7, and its power is 1064 |
| Day02Games.PowerIs | 02/solution.py:68 | the power is the product of the three largest counts |
| Day02Games.MaxIs | 02/solution.py:68 | `max` is an element no smaller than any other |
| Day02Games.SelectFive | 02/solution.py:45-47 | the counts of one colour over five rounds are the rounds' counts, in order |
| Day02Games.GameOneRead | 02/solution.py:76-81 | the first sample line reads as game 1 with red 10, 4, 5, 10, 19, green 7, 4, 1, 1 and blue 3, 7, 8, 7 |
| Day02Games.GameOnePower | 02/solution.py:67-90 | that game's power is 19 · 4 · 8 = 1064 |
| Day03Map.GetString | 03/map.py:15-16 | the word's characters, joined in order |
| Day03Map.GetNumberSpec | 03/map.py:18-19 | a non-empty word of digits is worth the decimal value of its digits; an empty word raises ValueError |
| Day03Map.RowCells | 03/map.py:28-32 | row y holds each character of line y with its own coordinates |
| Day03Map.MapOfSpec | 03/map.py:23-32 | a map can be built iff there is a line; it has the first line's width and the line count as height, and holds the character of (x, y) at row y, column x, with those coordinates |
| Day03Map.NewMap | 03/map.py:23-32 | the nested loops build the map the lines denote |
| Day03Map.PyIndex | 03/map.py:35 | a resolved Python index lies below the length |
| Day03Map.GetChar | 03/map.py:34-35 | an index past the row or the map raises IndexError |
| Day03Map.GetCharSpec | 03/map.py:34-35 | on non-negative coordinates the lookup gives the stored character, failing exactly past the row or the map |
| Day03Map.GetCharNegative | 03/map.py:35 | a negative row index counts back from the end of the map |
| Day03Map.CellsAroundSpec | 03/map.py:37-50 | the visited cells are exactly the map cells of the 3x3 block around the character, except itself |
| Day03Map.CornerNeighbors | 03/map.py:37-50 | a corner of a map at least 2x2 has three neighbours |
| Day03Map.NeighborsSpec | 03/map.py:37-50 | on a map whose rows are all as wide as the map, the lookup succeeds with the character of every visited cell, with its coordinates |
| Day03Map.GetNeighbors | 03/map.py:37-50 | the column and row loops give the neighbours, or the first lookup error |
| Day03Map.NeighborsErr | 03/map.py:45-49 | a lookup failure in the columns visited so far is the failure of the whole call |
| Day03Map.RowNumbers | 03/map.py:55-63 | one row yields its maximal digit runs, or IndexError when the row is shorter than the map |
| Day03Map.GetNumbers | 03/map.py:52-65 | the rows' digit runs, top to bottom |
| Day03Map.RunsLastDigit | 03/map.py:61-63 | a digit in the last column closes the run it ends |
| Day03Map.RunsEnded | 03/map.py:61-63 | a non-digit closes the pending run, and the rest is read afresh |
| Day03Map.RunsAreNumbers | 03/map.py:58-63 | every word found is a non-empty run of digits |
| Day03Map.RunsCoverDigits | 03/map.py:58-63 | together the words hold exactly the digits of the row, in order |
| Day03Map.RunsSeparated | 03/map.py:58-63 | words of one row are separated by at least one non-digit, so each run is maximal |
| Day03Map.IsAdjacentToSymbol | 03/map.py:67-74 | the loops answer whether some neighbour of some character of the word is a symbol, or give the first lookup error |
| Day03Map.NeighborsTouch | 03/map.py:67-74 | on a readable map the neighbours of a character hold a symbol iff a cell next to it does |
| Day03Map.AdjacentSpec | 03/map.py:67-74 | on a readable map the answer is true iff a cell next to one of the word's characters holds a symbol (neither digit, letter nor '.') |
| Day03Map.KeepAdjacentSpec | 03/map.py:76-78 | on a readable map the kept words are exactly those next to a symbol, in order |
| Day03Map.GetNumbersAdjacentToSymbol | 03/map.py:76-78 | the method gives the map's words next to a symbol |
| Day03Map.Example1Map | 03/map.py:82-94 | the first example map is 3 wide and 4 high, with '.' at (0, 0) |
| Day03Map.Example1NeighborsLeft | 03/map.py:96-100 | the top-left corner has the three neighbours (0,1) '.', (1,0) '1' and (1,1) '.' |
| Day03Map.Example1NeighborsRight | 03/map.py:102-106 | the top-right corner has the three neighbours (1,0) '1', (1,1) '.' and (2,1) '-' |
| Day03Map.Example1Numbers | 03/map.py:108-109 | the first example has the two numbers 12 and 345 |
| Day03Map.Example1Twelve | 03/map.py:110 | the first number is 12 |
| Day03Map.Example1ThreeFourFive | 03/map.py:111 | the second number is 345 |
| Day03Map.Example1Adjacent | 03/map.py:113-115 | only 12 is next to a symbol |
| Day04Cards.MatchesIn | 04/card.py:12-13 | no more matches than user numbers scanned |
| Day04Cards.Matches | 04/card.py:12-13 | no more matches than user numbers |
| Day04Cards.Pow2 | 04/card.py:14-17 | powers of two are at least 1 |
| Day04Cards.GetScore | 04/card.py:10-18 | the loop's score is 0 with no match and 2^(k-1) with k matches, counted with repetition |
| Day04Cards.NoMatches | 04/card.py:10-18 | the score is 0 iff no user number is winning |
| Day04Cards.PointsDouble | 04/card.py:16-17 | each further match doubles the score |
| Day04Cards.MatchesSameNumbers | 04/card.py:13 | membership only: winning lists with the same numbers, duplicates or not, give the same matches |
| Day04Cards.MatchesAppend | 04/card.py:12-13 | the match count is additive over the user list |
| Day04Cards.MatchesPrefix | 04/card.py:12-13 | the count over a prefix depends on that prefix only |
| Day04Cards.ReadCardOf | 04/card.py:21-29 | the card read from the header's last word and the two number lists on either side of `|` |
| Day04Cards.RenderAvoids | 04/card.py:25-27 | a written number list holds no `:` or `|` |
| Day04Cards.NumberAvoids | 04/card.py:22-23 | a written index holds no non-digit |
| Day04Cards.CardParts | 04/card.py:22 | a written card splits at its colon into header and numbers |
| Day04Cards.HeaderWords | 04/card.py:23 | the header's last word is the index |
| Day04Cards.CardSides | 04/card.py:25 | the numbers split at `|` into the winning and the user side |
| Day04Cards.ReadCardRender | 04/card.py:21-29 | a card written with one blank after `Card`, its two number lists in any blank layout, reads back as its index and number lists |
| Day04Cards.NoColon | 04/card.py:22 | a line without a colon raises ValueError |
| Day04Cards.WinningText | 04/card.py:33 | the winning side of the sample line |
| Day04Cards.UserText | 04/card.py:33 | the user side of the sample line, with its double blank |
| Day04Cards.FirstLineText | 04/card.py:33 | the sample line is a written card |
| Day04Cards.FirstLineValues | 04/card.py:36-37 | its number lists are [1, 2, 3] and [4, 5, 6] |
| Day04Cards.FirstLine | 04/card.py:33-37 | "Card 1: 1 2 3 \| 4 5  6" reads as card 1 with [1, 2, 3] and [4, 5, 6] |
| Day04Cards.CardOneScore | 04/card.py:40 | four matches on card 1 |
| Day04Cards.CardTwoScore | 04/card.py:41 | two matches on card 2 |
| Day04Cards.CardThreeScore | 04/card.py:42 | two matches on card 3 |
| Day04Cards.CardFourScore | 04/card.py:43 | one match on card 4 |
| Day04Cards.CardFiveScore | 04/card.py:44 | no match on card 5 |
| Day04Cards.CardSixScore | 04/card.py:45 | no match on card 6 |
| Day04Cards.ExampleTotal | 04/card.py:48-50 | the six sample cards score 13 in total |
| Day05Almanac.GetDestination | 05/map.py:10-15 | a destination exists iff the source lies in [src, src+len); ValueError below or above that range |
| Day05Almanac.DestinationSource | 05/map.py:10-15 | the destination is dst + (s − src), and the source is recovered from it: the map is an inverse pair on its range |
| Day05Almanac.DestinationShift | 05/map.py:15 | within the range, differences and order of sources are kept |
| Day05Almanac.DestinationExamples | 05/map.py:104-110 | 98→50, 99→51, 15→0, 16→1, and 97 and 100 raise |
| Day05Almanac.DestinationsIn | 05/map.py:24-28 | no more destinations than maps scanned |
| Day05Almanac.GetDestinations | 05/map.py:22-29 | the loop, swallowing each ValueError, returns the destinations of the maps in map order |
| Day05Almanac.DestinationsInMembers | 05/map.py:24-28 | a value is listed iff some scanned map sends the source to it |
| Day05Almanac.DestinationsInCount | 05/map.py:24-28 | one value per scanned map whose range contains the source |
| Day05Almanac.DestinationsMeaning | 05/map.py:22-29 | listed values are exactly the maps' destinations, one per containing map, and [] iff no map contains the source |
| Day05Almanac.FindBetween | 05/map.py:32-33 | fails iff the start is empty, the start does not occur (IndexError), or the end is empty |
| Day05Almanac.FindBetweenCut | 05/map.py:32-33 | the result is the text after the first start, cut at the next start or end or the end of the text, and holds neither |
| Day05Almanac.ParseSeedsRender | 05/map.py:92-93 | a written seed list reads back as its numbers |
| Day05Almanac.ReadRange | 05/map.py:85-89 | a line is read only if it has at least three blank-separated parts |
| Day05Almanac.ParseMap | 05/map.py:80-90 | the loop skips blank lines and reads every other line as a range map, in order, with the first error raised |
| Day05Almanac.ReadRangeRender | 05/map.py:85-89 | a written range line reads back as its map |
| Day05Almanac.RangeLayouts | 05/map.py:85-89 | the written form of each range map |
| Day05Almanac.ReadSection | 05/map.py:80-90 | a written map section, with blank lines around it, reads back as its range maps |
| Day05Almanac.RangeLayoutsDense | 05/map.py:85 | range lines are written with single blanks |
| Day05Almanac.ReadRenderedRanges | 05/map.py:85-89 | every written range line reads back, in order |
| Day06Boat.WinnersBelow | 06/boat.py:15-17 | no more winners than charges tried |
| Day06Boat.CountWinners | 06/boat.py:13-18 | the loop counts exactly the charges 1..time-1 whose distance beats the record |
| Day06Boat.WinnersBelowCount | 06/boat.py:15-17 | the counter after n charges is the number of winning charges below n |
| Day06Boat.DistanceSymmetric | 06/boat.py:4-5 | the distance is symmetric under charge ↔ time − charge |
| Day06Boat.WinsSymmetric | 06/boat.py:16 | a charge wins iff its mirror charge does |
| Day06Boat.WinnersContiguous | 06/boat.py:16 | the winning charges form an interval |
| Day06Boat.DistanceExamples | 06/boat.py:45-48 | the distances 3, 4, 3, 0 for time 4 |
| Day06Boat.ExampleRace | 06/boat.py:50 | Race(4, 3) has the single winning charge 2 |
| Day06Boat.Times | 06/boat.py:37 | the times, race by race |
| Day06Boat.Distances | 06/boat.py:38 | the distances, race by race |
| Day06Boat.JoinRaces | 06/boat.py:33-40 | the loop glues the decimal strings of the times and of the distances and reads them back |
| Day06Boat.ConcatDigits | 06/boat.py:36-38 | the glued string is all digits and its value is the numbers glued in decimal |
| Day06Boat.JoinedValue | 06/boat.py:40 | `int` of the glued string is the glued number, and ValueError on no races |
| Day06Boat.JoinRacesValue | 06/boat.py:33-40 | joining gives the race of glued times and glued distances, ValueError for an empty list |
| Day06Boat.GlueTwo | 06/boat.py:36-38 | two digits glue to 10·a + b |
| Day06Boat.JoinExample | 06/boat.py:52-56 | (4,3) and (6,5) join to (46,35) |
| Day06Boat.ReadRowRender | 06/boat.py:22-25 | a row written as key, padding and numbers reads back as its numbers, however many blanks separate them |
| Day06Boat.PairRaces | 06/boat.py:27-30 | the i-th time is paired with the i-th distance; IndexError when distances run out |
| Day06Boat.ReadRaces | 06/boat.py:21-30 | reading both rows then pairing them, with the errors of either step |
| Day07Cards.LabelsDistinct | 07/cards.py:10 | the strength list holds thirteen distinct labels |
| Day07Cards.CardStrengthLabels | 07/cards.py:9-11 | a card has a strength iff its label is listed (otherwise ValueError), and the strength is the label's position |
| Day07Cards.CardStrengthIndex | 07/cards.py:9-11 | the label at position i has strength i: 2 is 0, T is 8, A is 12 |
| Day07Cards.CardStrengthInjective | 07/cards.py:9-11 | different labels have different strengths |
| Day07Cards.BuildCards | 07/cards.py:17-21 | the loop gives one card per character |
| Day07Cards.TextParseCards | 07/cards.py:17-21 | joining the labels of the parsed cards gives the text back |
| Day07Cards.ParseCardsText | 07/cards.py:17-21 | parsing the joined labels gives the cards back |
| Day07Cards.TupleOf | 07/cards.py:34-38 | the inner loop finds the first tuple of the card, or none iff no tuple holds it |
| Day07Cards.AddCardSpec | 07/cards.py:33-40 | one card bumps its own tuple's count and leaves the others, or opens a new tuple with count 1 at the end |
| Day07Cards.GetCardTuples | 07/cards.py:30-41 | the nested loops give the hand's tally |
| Day07Cards.TallyDistinct | 07/cards.py:30-41 | each card value has at most one tuple |
| Day07Cards.TallyListed | 07/cards.py:30-41 | a card value has a tuple iff the hand holds it |
| Day07Cards.TallyCounts | 07/cards.py:30-41 | each tuple counts how often its card occurs in the hand |
| Day07Cards.TallyOrder | 07/cards.py:30-41 | the tuples follow the order of their cards' first occurrence |
| Day07Cards.AddCardOrder | 07/cards.py:32-40 | counting one more card keeps every tuple's card in the hand and the tuples in first-occurrence order |
| Day07Cards.TallyTotal | 07/cards.py:30-41 | the counts add up to the hand's size |
| Day07Cards.TallyShape | 07/cards.py:30-41 | one tuple per distinct label, and the largest count is how often the commonest label occurs |
| Day07Cards.TallySize | 07/cards.py:30-41 | the tally has one tuple per distinct label of the hand |
| Day07Cards.TallyMax | 07/cards.py:30-41 | no label occurs more often than the largest count, and on a non-empty hand some label occurs exactly that often |
| Day07Cards.NewHand | 07/cards.py:45-47 | a hand keeps its cards and their tally |
| Day07Cards.SumTupleWeights | 07/cards.py:51-53 | the first loop sums 2^(18+2*count) over the tuples |
| Day07Cards.SumCardStrengths | 07/cards.py:54-55 | the second loop sums the i-th strength from the right times 16^i |
| Day07Cards.GetStrength | 07/cards.py:49-56 | the method gives the hand's strength, or ValueError for an unknown label |
| Day07Cards.FiveCardTypeValue | 07/cards.py:51-53 | for positive counts adding up to five, the tuple part is the type's units of 2^20 |
| Day07Cards.ValueBound | 07/cards.py:54-55 | n card strengths make less than 16^n, so the card part never reaches the type part |
| Day07Cards.ValueOrder | 07/cards.py:54-55 | comparing card parts of equally long hands is comparing them card by card from the left |
| Day07Cards.FiveCardStrength | 07/cards.py:49-56 | a valid five-card hand's strength is its type's units of 2^20 plus a card part below 2^20 |
| Day07Cards.HandOrder | 07/cards.py:58-59 | a hand is less than another iff its type is weaker, or the types are equal and its cards are less from the left |
| Day07Cards.StrengthInjective | 07/cards.py:49-59 | two five-card hands have equal strength iff they hold the same cards, so hands never tie |
| Day07Cards.GreaterIsLessFlipped | 07/cards.py:58-62 | `a > b` is defined iff both strengths are, and is then `b < a` |
| Day07Cards.ParsePlayer | 07/cards.py:80-85 | a line reads iff it splits at blanks into exactly two parts with an integer bid; otherwise ValueError |
| Day07Cards.ParsePlayerLine | 07/cards.py:80-85 | a written player line reads back as its hand and bid |
| Day07Cards.GetScore | 07/cards.py:92-94 | ValueError iff there are two or more players and some hand has an unknown card; otherwise the sum of bid times place after a stable sort |
| Day07Cards.ScoreByRank | 07/cards.py:92-94 | with known hands and distinct strengths the score is every bid times its hand's rank |
| Day07Cards.FiveCardScore | 07/cards.py:92-94 | for distinct valid five-card hands the score is every bid times its hand's rank |
| Day07Cards.ScoreOfTwo | 07/cards.py:92-94 | of two known hands, the first weaker, the score is the first bid plus twice the second |
| Day07Cards.StrengthOfKK677 | 07/cards.py:49-56 | KK677 has strength 10204245 (two pair) |
| Day07Cards.SortHandsExample | 07/cards.py:106-111 | the five example hands sort as AAAKQ, 22233, 33222, KKKKQ, 22222 |
| Day07Cards.ScoreExample | 07/cards.py:113-118 | bids 8 and 16 on 22233 and 33222 score 40 |
| Day07Cards.GameExample | 07/cards.py:120-133 | the five example players sort as 32T3K, KTJJT, KK677, T55J5, QQQJA and score 6440 |
| Day08Graph.NameHash | 08/cpp/main.cpp:11-20 | the hash of any name fits in a `size_t`; the `int` accumulator wraps each sum to 32 bits and is sign-extended back |
| Day08Graph.NameHashPlain | 08/cpp/main.cpp:11-20 | for a plain name no sum wraps: the hash is the three bytes less '0', at 1, 256 and 65536 |
| Day08Graph.NodeName | 08/cpp/main.cpp:22-30 | the name is three characters, each a byte |
| Day08Graph.NameRoundTrip | 08/cpp/main.cpp:11-30 | `getNodeName(getNodeNameHash(s)) == s` for a plain name, whose hash is below 2^24 |
| Day08Graph.NameHashInjective | 08/cpp/main.cpp:11-20 | distinct plain names have distinct hashes |
| Day08Graph.TrimSlice | 08/cpp/main.cpp:99-115 | trim keeps a slice with only `c` outside it, and the slice neither starts nor ends with `c` |
| Day08Graph.TrimPadded | 08/cpp/main.cpp:99-115 | runs of `c` around a text that neither starts nor ends with `c` are exactly what trim removes |
| Day08Graph.TrimExample | 08/cpp/main.cpp:99-115 | trimming blanks from "  AAA  " gives "AAA" |
| Day08Graph.SplitAt | 08/cpp/main.cpp:89-97 | no piece holds the delimiter |
| Day08Graph.SplitTwo | 08/cpp/main.cpp:89-97 | a delimiter-free head, the delimiter and a non-empty delimiter-free tail split into exactly the two |
| Day08Graph.TrimParts | 08/cpp/main.cpp:119-121 | the loop trims every part in place |
| Day08Graph.TrimChildren | 08/cpp/main.cpp:132-138 | the loop succeeds iff every trimmed child is three characters, and then yields the trimmed children |
| Day08Graph.ReadNode | 08/cpp/main.cpp:117-144 | the method gives the node its line denotes, or the error it throws |
| Day08Graph.ParseNodeLine | 08/cpp/main.cpp:117-144 | a written line `NAME = (LFT, RGT)` reads back as the three names' hashes |
| Day08Graph.ParseRenderNode | 08/cpp/main.cpp:41-44 | writing a node as the output operator does and reading the line back gives the node |
| Day08Graph.ReadNodeExample | 08/cpp/main.cpp:117-144 | "DRM = (DLQ, BGR)" reads as DRM with children DLQ and BGR |
| Day08Graph.GraphOfNodes | 08/cpp/main.cpp:79-83 | the graph holds exactly the listed hashes, each mapped to a listed node with that hash |
| Day08Graph.GraphOfLast | 08/cpp/main.cpp:79-83 | a later node with the same hash overwrites an earlier one |
| Day08Graph.Graph.constructor | 08/cpp/main.cpp:79-83 | the map stores every node under its hash, the last of equal hashes winning |
| Day08Graph.Graph.GetNode | 08/cpp/main.cpp:57-59 | out_of_range iff the hash is missing; a found node has that hash |
| Day08Graph.Graph.Step | 08/cpp/main.cpp:69-77 | 'L' looks up the left child, 'R' the right, anything else throws "Invalid instruction" |
| Day08Graph.StepInList | 08/cpp/main.cpp:61-77 | a successful step ends at a listed node whose hash is the child's |
| Day08Graph.InstructionCircle.constructor | 08/cpp/main.cpp:154 | the circle keeps its text and index |
| Day08Graph.InstructionCircle.Next | 08/cpp/main.cpp:148-152 | returns the instruction at idx (the terminating NUL at the length) and advances idx modulo the length, so it stays a valid index |
| Day08Graph.FindNode | 08/cpp/main.cpp:186 | the first index of the node, and the length iff it is absent |
| Day08Graph.IndexUnique | 08/cpp/main.cpp:214-216 | distinct (instruction, node) pairs have distinct flat indices i*n + j |
| Day08Graph.IndexBound | 08/cpp/main.cpp:214-216 | a flat index lies in its row's block and below rows*n |
| Day08Graph.WaypointGraph.constructor | 08/cpp/main.cpp:169-178 | the table holds len(instructions)*len(nodes) waypoints, each reset with distance -1 |
| Day08Graph.WaypointGraph.GetWaypoint | 08/cpp/main.cpp:214-216 | the index lies within the table, in row i |
| Day08Graph.WaypointGraph.GetWaypointOf | 08/cpp/main.cpp:221-223 | for a listed node its waypoint in row i; for an absent node one past the row |
| Day08Graph.WaypointGraph.LinkRow | 08/cpp/main.cpp:181-188 | links every waypoint of row i and leaves the other rows; throws iff some node's step throws, with that error |
| Day08Graph.WaypointGraph.Link | 08/cpp/main.cpp:180-189 | throws iff some step throws, with that error; otherwise each waypoint holds its node and its child |
| Day08Graph.ChildIsStep | 08/cpp/main.cpp:184-187 | the child of waypoint (i, j) is the waypoint of the next instruction holding the node instruction i leads to from node j |
| Day08Graph.Visited | 08/cpp/main.cpp:197-207 | a visit changes at most waypoint k and never unsets a distance |
| Day08Graph.VisitSound | 08/cpp/main.cpp:197-207 | a visit keeps every set distance right: the number of links to the first Z waypoint, which is the destination |
| Day08Graph.VisitProgress | 08/cpp/main.cpp:197-207 | in round r a visit sets every waypoint whose first Z waypoint is at most r links away |
| Day08Graph.VisitCount | 08/cpp/main.cpp:199-205 | the counter grows by one exactly when the visit sets the distance |
| Day08Graph.CountSetFull | 08/cpp/main.cpp:192 | the counter reaches the table size exactly when every waypoint is set |
| Day08Graph.WaypointGraph.Visit | 08/cpp/main.cpp:196-208 | the loop body sets the waypoint as the visit does and reports whether it set it |
| Day08Graph.WaypointGraph.SweepRow | 08/cpp/main.cpp:195-209 | a row of the sweep keeps the sweep invariant and counts the distances it sets |
| Day08Graph.WaypointGraph.SetDistances | 08/cpp/main.cpp:191-211 | distances only get set, each one right; the table is complete iff every waypoint is set, and otherwise every waypoint within fuel links of a Z waypoint is set |
| Day08Graph.CompleteReaches | 08/cpp/main.cpp:191-211 | in a completed table every waypoint reaches a Z waypoint, and its destination is the first one |
| Day08Graph.IncompleteFar | 08/cpp/main.cpp:191-211 | when the fuel runs out some waypoint is unset, and its first Z waypoint, if any, is at least fuel links away |
| Day08Tree.ReadNode | 08/tree.py:31-36 | a line without exactly one '=', or children without exactly one ',', raises ValueError |
| Day08Tree.ReadNodeOf | 08/tree.py:31-36 | a line that splits into two sides, and children that split into two, reads as the stripped name and children |
| Day08Tree.ReadNodeRender | 08/tree.py:31-36 | every node written as `NAME = (LFT, RGT)` reads back as itself |
| Day08Tree.ReadNodeNoEquals | 08/tree.py:32 | a line without '=' raises ValueError |
| Day08Tree.ExampleNode | 08/tree.py:84-87 | "STS = (QBV, QVV)" reads as name STS, lhs QBV, rhs QVV |
| Day08Tree.NameIndex | 08/tree.py:19 | the position of the first node with that name, or the node count when there is none |
| Day08Tree.GetNode | 08/tree.py:18-22 | the first node with the name, or StopIteration iff there is none; the `is None` test never fires |
| Day08Tree.Step | 08/tree.py:39-46 | the current node on empty instructions, its left successor on 'L', its right one on anything else; a missing successor raises |
| Day08Tree.StepInGraph | 08/tree.py:24-28 | a successful step ends at the first node of the graph with its name |
| Day08Tree.Idx | 08/tree.py:54-57 | the circle's index stays below the length |
| Day08Tree.IdxCounts | 08/tree.py:54-57 | before wrapping, each read moves the index on by exactly one place |
| Day08Tree.InstructionCircle.constructor | 08/tree.py:50-52 | a new circle starts at index 0 |
| Day08Tree.InstructionCircle.Next | 08/tree.py:54-57 | returns the instruction at the index and advances it modulo the length; IndexError on an empty string |
| Day08Tree.OnWalkNext | 08/tree.py:67-70 | a step from a traversal's state reads the circle at its index and lands where the walk goes next |
| Day08Tree.Traversal.constructor | 08/tree.py:61-65 | a new traversal's path holds only its start node |
| Day08Tree.Traversal.Next | 08/tree.py:67-73 | each call reaches the walk's next node and appends exactly it to the path, so the step count grows by one; an error changes nothing |
| Day08Tree.ReadProblemSetOf | 08/tree.py:76-80 | the first non-blank line is the instructions and the other non-blank lines are the nodes, in order |
| Day08Tree.ReadRenderPuzzle | 08/tree.py:76-80 | a puzzle text written with blank lines around the instructions reads back as its instructions and nodes |
| Day08Tree.ExampleRead | 08/tree.py:89-101 | the first example text reads as "RL" and its seven nodes |
| Day08Tree.ExampleSteps | 08/tree.py:103-108 | from AAA the instructions RL first reach ZZZ after 2 steps |
| Day08Tree.SecondRead | 08/tree.py:110-119 | the second example text reads as "LLR" and its three nodes |
| Day08Tree.SecondSteps | 08/tree.py:120-125 | from AAA the instructions LLR first reach ZZZ after 6 steps |
| Day08Waypoints.NextRow | 08/part2.py:27 | the next instruction index, back to 0 after the last |
| Day08Waypoints.Targets | 08/part2.py:24-27 | one link per waypoint, each the target of its step |
| Day08Waypoints.TargetInTable | 08/part2.py:26-27 | when every step succeeds, the waypoint after (i, j) lies in the table |
| Day08Waypoints.FreshRow | 08/part2.py:22 | one fresh waypoint per node: no child, no destination, distance -1 |
| Day08Waypoints.WaypointManager.constructor | 08/part2.py:15-22 | len(instructions) rows of len(nodes) fresh waypoints |
| Day08Waypoints.WaypointManager.Link | 08/part2.py:24-27 | StopIteration iff some step has no successor; otherwise every waypoint (i, j) links to the waypoint of the next instruction index at the node its instruction leads to |
| Day08Waypoints.Visited | 08/part2.py:34-43 | one inner-loop body: an unset Z waypoint gets 0 and itself, an unset one with a set child the child's distance plus one and destination; a name without a third letter raises IndexError |
| Day08Waypoints.VisitSound | 08/part2.py:34-43 | a visit keeps every set distance right: the number of links to the first Z waypoint, which is the destination |
| Day08Waypoints.VisitProgress | 08/part2.py:34-43 | in round r a visit sets every waypoint whose first Z waypoint is at most r links away |
| Day08Waypoints.VisitCount | 08/part2.py:35-43 | the counter grows by one exactly when the visit sets the distance |
| Day08Waypoints.CountSetPut | 08/part2.py:38-42 | setting one unset waypoint adds one to the count |
| Day08Waypoints.CountSetFull | 08/part2.py:30 | the count is at most the table size, reached exactly when all waypoints are set |
| Day08Waypoints.SweepStep | 08/part2.py:36 | a visit fails only on a name without a third letter, which the first row of the first round meets first |
| Day08Waypoints.WaypointManager.Visit | 08/part2.py:34-43 | the loop body does what the visit says and reports whether it set the distance |
| Day08Waypoints.WaypointManager.SweepRow | 08/part2.py:33-43 | one row of a round visits the waypoints in order and keeps the sweep invariant and the count |
| Day08Waypoints.WaypointManager.SetDistances | 08/part2.py:29-43 | IndexError iff there is a round and some name lacks a third letter; otherwise every set distance is right, complete iff every waypoint is set, and otherwise every waypoint within fuel links of a Z waypoint is set |
| Day08Waypoints.CompleteReaches | 08/part2.py:29-43 | in a completed table every waypoint reaches a Z waypoint, and its destination is the first one |
| Day08Waypoints.IncompleteFar | 08/part2.py:30 | when the fuel runs out some waypoint is unset and is at least fuel links from any Z waypoint, so the source's loop would not end |
| Day08Waypoints.RoundKeeps | 08/part2.py:32-43 | a round fails exactly when it is the first, there are rows and some name has no third letter; otherwise every set distance stays right and one more link's worth of waypoints is set |
| Day09Sequences.ReadSequenceRender | 09/seq.py:1-2 | a line of numbers with single blanks reads back as those numbers |
| Day09Sequences.Differences | 09/seq.py:9-10 | a list of length n has n−1 differences |
| Day09Sequences.RecursiveDifferences | 09/seq.py:13-21 | the table starts with the list, each later row is the differences of the one before, and the last row is all zeros |
| Day09Sequences.TableUnique | 09/seq.py:13-21 | the table of a list is unique |
| Day09Sequences.TableRowsAgree | 09/seq.py:13-21 | two tables of one list agree row by row |
| Day09Sequences.ExtendFrom | 09/seq.py:25-29 | the rows from i down are each one longer, those above untouched |
| Day09Sequences.Extrapolate | 09/seq.py:24-30 | appends one element per row bottom-up and returns the top's new last; IndexError on an empty row or table |
| Day09Sequences.ExtendBackFrom | 09/seq.py:34-38 | the rows from i down each get a new first element, those above untouched |
| Day09Sequences.ExtrapolateBackwards | 09/seq.py:33-39 | prepends first − below's new first in each row and returns the top's new first; IndexError as above |
| Day09Sequences.ExtendFromValue | 09/seq.py:25-29 | on a table, the new last of row i is the next value of that row |
| Day09Sequences.ExtendBackFromValue | 09/seq.py:34-38 | on a table, the new first of row i is the previous value of that row |
| Day09Sequences.TableExtendable | 09/seq.py:13-21 | the table of a non-empty list can be extrapolated |
| Day09Sequences.ExtrapolateTable | 09/seq.py:24-39 | on the table of a list both extrapolations give its next and previous values; an empty list cannot be extrapolated |
| Day09Sequences.PredictNext | 09/seq.py:50 | `extrapolate(getRecursiveDifferences(s))` is the next value of s, IndexError for an empty s |
| Day09Sequences.PredictPrev | 09/seq.py:55 | `extrapolateBackwards(getRecursiveDifferences(s))` is the previous value of s, IndexError for an empty s |
| Day09Sequences.NextStep | 09/seq.py:29 | the next value is the last element plus the next value of the differences |
| Day09Sequences.PrevStep | 09/seq.py:38 | the previous value is the first element minus that of the differences |
| Day09Sequences.ZeroRow | 09/seq.py:25 | an all-zero row extends with 0 at either end |
| Day09Sequences.Row | 09/seq.py:10 | differences computed element by element |
| Day09Sequences.FirstExample | 09/seq.py:44-56 | 0 3 6 9 12 15 extends to 18 and back to −3 |
| Day09Sequences.SecondExample | 09/seq.py:45-56 | 1 3 6 10 15 21 extends to 28 and back to 0 |
| Day09Sequences.ThirdExample | 09/seq.py:46-56 | 10 13 16 21 30 45 extends to 68 and back to 5 |
| Day09Sequences.ReadLines | 09/seq.py:1-2 | every written line reads back as its numbers |
| Day09Sequences.ReadSequencesText | 09/seq.py:5-6 | a text of number lines with a blank first and last line reads back as the lists, skipping the blank lines |
| Day09Sequences.ExampleSums | 09/seq.py:50-58 | the three example histories predict 18, 28, 68 forwards, adding up to 114, and -3, 0, 5 backwards, adding up to 2 |
| Day10Pipes.ReadField | 10/mypipes.py:103-122 | a character is read iff it is one of the eight symbols; a pipe gets two distinct compass connections, `.` and `S` none, and only `S` is the start |
| Day10Pipes.RelabelReadField | 10/mypipes.py:89-100 | the symbol chosen for a pipe's connections is that pipe's own symbol |
| Day10Pipes.ReadFieldRelabel | 10/mypipes.py:89-122 | two distinct compass connections get a pipe symbol that reads back as exactly those connections |
| Day10Pipes.RelabelKeeps | 10/mypipes.py:89-100 | with fewer than two connections the start keeps its symbol |
| Day10Pipes.ReadRow | 10/mypipes.py:130-134 | a row reads iff all its characters are symbols, cell by cell, and reports the last `S` in it |
| Day10Pipes.ReadGrid | 10/mypipes.py:125-136 | the grid reads iff every character is a symbol and some is `S`; each cell is read at its own position and the start is the last `S` |
| Day10Pipes.ConnectionPositions | 10/mypipes.py:40-41 | one position per connection, the field's position moved by it |
| Day10Pipes.Lookup | 10/mypipes.py:52-53 | an in-bounds position is found as itself; a found position is in bounds |
| Day10Pipes.LookupWrapsNorth | 10/mypipes.py:52-53 | row -1 is Python's last row |
| Day10Pipes.LookupAll | 10/mypipes.py:60-61 | succeeds iff every position is found, with each found position in order |
| Day10Pipes.ConnectionFieldsSpec | 10/mypipes.py:60-61 | the connection fields are the looked-up connection positions, and exactly those positions when all are on the map |
| Day10Pipes.MapNeighbors | 10/mypipes.py:55-58 | at most four, and exactly the in-bounds positions adjacent to the field |
| Day10Pipes.NextFieldSpec | 10/mypipes.py:63-69 | the next field exists iff the previous field is among at least two connection fields; it is one of them, and not the previous one when they are distinct |
| Day10Pipes.AcceptedAmongSpec | 10/mypipes.py:81-88 | a direction is kept iff its neighbour on the map connects back, distinctness kept |
| Day10Pipes.StartLinksAccepted | 10/mypipes.py:72-88 | the start's new connections are exactly the compass directions whose neighbour points back at it, each once |
| Day10Pipes.MarkAllSpec | 10/mypipes.py:155-168 | after marking, a field is on the main loop iff it was or it was walked |
| Day10Pipes.MarkAllKeeps | 10/mypipes.py:155-168 | marking changes no connection, no position and no start flag |
| Day10Pipes.NextFieldMarkAll | 10/mypipes.py:63-69 | the walk's next field does not depend on the marks made so far |
| Day10Pipes.WalkExtends | 10/mypipes.py:162-169 | a walk stays a walk when the next field is appended |
| Day10Pipes.WalkLoop | 10/mypipes.py:160-169 | the loop starts at the start, marks exactly the walked fields and follows the next-field rule at every step; without error it comes back to the start, and an error is either the one the next-field rule raised at the last field or the step budget running out |
| Day10Pipes.PipeMap.ConnectStart | 10/mypipes.py:72-100 | the start field alone changes: it gains every neighbour direction that points back and the symbol of its connections |
| Day10Pipes.PipeMap.CreateLoop | 10/mypipes.py:153-174 | on success a fresh ring of the walked fields from the start, first left towards its second connection, back to the start, with those fields marked on the main loop; an error comes only from a start without connection fields, from the walk, or from the step budget |
| Day10Pipes.ReadStart | 10/mypipes.py:119-120 | the field read at the start position is a start with no connections |
| Day10Pipes.ConnectFreshStart | 10/mypipes.py:72-100 | after connecting, the start holds exactly the directions whose neighbour points back |
| Day10Pipes.ReadAsWellPlaced | 10/mypipes.py:128-134 | every field read knows its own position |
| Day10Pipes.ReadMap | 10/mypipes.py:125-139 | reads iff every character is a symbol and some is `S`; the map then holds the fields read and a connected start |
| Day10Pipes.FarthestRingDistance | 10/mypipes.py:177-189 | on a ring of n fields no distance exceeds n/2 and position n/2 reaches it |
| Day10Pipes.Ring.constructor | 10/mypipes.py:142-147 | every node starts at distance -1 |
| Day10Pipes.Ring.LinksInverse | 10/mypipes.py:171-172 | child and parent links are inverse |
| Day10Pipes.Ring.AssignDistances | 10/mypipes.py:177-189 | the forward and backward passes leave each node at its distance round the ring, the shorter way |
| Day10Pipes.Ring.Unwrap | 10/mypipes.py:192-199 | the ring unwrapped from the start lists every node once, in child order |
| Day10Regions.BuildRows | 10/mypipes.py:217-229 | the row pass of the augmentation: each row copied, then a row of south connectors (cells stated by InterleavedAt) |
| Day10Regions.InterleavedAt | 10/mypipes.py:217-229 | row 2y holds the copied fields of row y and row 2y+1 their south connectors |
| Day10Regions.BuildColumns | 10/mypipes.py:231-253 | the column pass: each column followed by a column of east connectors, failing with IndexError as `res[0]` or a short row does |
| Day10Regions.ReadColumn | 10/mypipes.py:237 | column x is read iff every row reaches it, and then holds each row's x-th field |
| Day10Regions.EastConnectors | 10/mypipes.py:238-248 | odd rows get a blank pseudo field, even rows the east connector of the field |
| Day10Regions.WidenedCells | 10/mypipes.py:250-252 | each widened row holds the old field at 2x and the connector at 2x+1 |
| Day10Regions.SetPositions | 10/mypipes.py:254-257 | the position pass (stated cell by cell by PlacedAt) |
| Day10Regions.PlacedAt | 10/mypipes.py:254-257 | every augmented field gets its own position and nothing else changes |
| Day10Regions.Augment | 10/mypipes.py:210-257 | the augmented map is the one the row and column passes define |
| Day10Regions.AugmentedFails | 10/mypipes.py:236-251 | the augmentation fails exactly on an empty map or a row shorter than the first |
| Day10Regions.AugmentedShape | 10/mypipes.py:210-257 | the augmented map has twice the rows and twice the first row's columns, with each field at its own position |
| Day10Regions.AugmentedAt | 10/mypipes.py:210-257 | each original cell becomes a 2×2 block: the copy, its east connector, its south connector and a blank filler |
| Day10Regions.AugmentedField | 10/mypipes.py:220-221 | at (2x, 2y) lies the original field, not pseudo |
| Day10Regions.AugmentedSouth | 10/mypipes.py:224-229 | at (2x, 2y+1) a pseudo field, on the loop iff the field above is a loop pipe going south |
| Day10Regions.AugmentedEast | 10/mypipes.py:243-248 | at (2x+1, 2y) a pseudo field, on the loop iff the field to its left is a loop pipe going east |
| Day10Regions.AugmentedDiagonal | 10/mypipes.py:241-242 | at (2x+1, 2y+1) a pseudo field that is never on the loop |
| Day10Regions.FieldNeighbors | 10/mypipes.py:267-270 | at most four neighbours, four exactly when all adjacent positions are on the map |
| Day10Regions.FieldNeighborsSpec | 10/mypipes.py:267-270 | a field is a neighbour iff it lies on the map at a position adjacent to the given one |
| Day10Regions.CountPositive | 10/mypipes.py:324-348 | a field is counted in some region iff some region lists it |
| Day10Regions.CountRemove | 10/mypipes.py:346 | removing a region takes away its own share of each field's count |
| Day10Regions.AnyIn | 10/mypipes.py:334-338 | the inner loop finds a neighbour in the region iff one is there |
| Day10Regions.JoinTouched | 10/mypipes.py:333-338 | every region touching a neighbour gets the field appended, and exactly those are collected, in order |
| Day10Regions.JoinedComplete | 10/mypipes.py:333-338 | every touched region, grown, is among those collected |
| Day10Regions.JoinedCount | 10/mypipes.py:333-338 | a new field ends up in exactly as many regions as were collected |
| Day10Regions.ExtendCount | 10/mypipes.py:333-338 | joining leaves the counts of every other field unchanged |
| Day10Regions.MergeFound | 10/mypipes.py:343-347 | the collected regions are removed and their concatenation appended: multiset and counts preserved, and the merged region holds exactly their fields |
| Day10Regions.AddField | 10/mypipes.py:330-347 | the field ends up in exactly one region, the last, together with every region it touched; untouched regions remain, other counts are unchanged, and with no touch it starts a region of its own |
| Day10Regions.LoneStep | 10/mypipes.py:340-341 | a field touching no region gets a region of its own at the end: counted once, other counts unchanged, connected regions stay connected |
| Day10Regions.GetRegions | 10/mypipes.py:324-348 | every off-loop field lies in exactly one region, loop fields in none, adjacent off-loop fields share a region, and any two fields of one region are linked by a chain of adjacent fields of that region |
| Day10Regions.BorderFieldsMembers | 10/mypipes.py:351-363 | border fields are exactly the region's fields that are borders |
| Day10Regions.BorderMeaning | 10/mypipes.py:354-362 | a field is a border iff it is at the map's edge or an adjacent field on the map lies outside the region |
| Day10Regions.AnyOutside | 10/mypipes.py:359-362 | the loop finds a neighbour outside the region iff one is there |
| Day10Regions.GetRegionBorderFields | 10/mypipes.py:351-363 | the border fields of the region, in region order |
| Day10Regions.IsEnclosed | 10/mypipes.py:369-374 | a border passes iff it has four neighbours and one of them is on the loop |
| Day10Regions.EnclosedMeaning | 10/mypipes.py:369-374 | enclosed means four neighbours with at least one on the main loop |
| Day10Regions.CheckBorders | 10/mypipes.py:368-376 | true iff every border passes |
| Day10Regions.IsSurroundedByLoop | 10/mypipes.py:366-376 | true iff every border field of the region is enclosed |
| Day10Regions.SurroundedMeaning | 10/mypipes.py:366-376 | surrounded iff every field of the region that is a border is enclosed |
| Day10Regions.EdgeNotSurrounded | 10/mypipes.py:355-357 | a region touching the map's edge is never surrounded |
| Day10Pipes.PipeMap.constructor | 10/mypipes.py:47-50 | the map holds the fields read and its start, and is well formed |
| Day10Regions.GrownConnected | 10/mypipes.py:333-338 | a field appended to a region next to one of its fields keeps the region 4-connected through its own fields |
| Day10Regions.MergedConnected | 10/mypipes.py:343-347 | connected regions that all hold the new field merge into one connected region |
| Day10Regions.StepConnected | 10/mypipes.py:330-347 | adding one field keeps every region connected |
| Day11Universe.RowShift | 11/universe.py:28-34 | widening a row keeps its galaxies in order and moves each right by the number of empty columns before it |
| Day11Universe.IsEmptyRowSpec | 11/universe.py:13-14 | a row is empty exactly when none of its characters is '#' |
| Day11Universe.IsEmptyColumnSpec | 11/universe.py:17-18 | a column is empty exactly when no line has '#' at that index |
| Day11Universe.EmptyColumnsAt | 11/universe.py:29-30 | the flag of column c is whether column c of the input is empty |
| Day11Universe.ExpandRowsHeight | 11/universe.py:22-26 | the row pass yields one line per input line plus one per empty row |
| Day11Universe.ExpandRowsFrom | 11/universe.py:22-26 | every line after the row pass is one of the input lines |
| Day11Universe.ExpandLineWidth | 11/universe.py:28-34 | widening a line adds one character per empty column passed |
| Day11Universe.InsertStep | 11/universe.py:30-33 | inserting '.' at the moving column index carries the line across one empty column |
| Day11Universe.SkipStep | 11/universe.py:34 | across a column that is not empty the line is unchanged |
| Day11Universe.InsertColumn | 11/universe.py:31-32 | the inner loop inserts '.' in every line at the expanded column and keeps all lines widened up to the next column |
| Day11Universe.SkipColumn | 11/universe.py:34 | the widened invariant survives a column that is not empty |
| Day11Universe.CreateExpandedUniverse | 11/universe.py:21-36 | the method returns the expanded universe of the specification, or the IndexError a line shorter than the first raises |
| Day11Universe.WidenColumns | 11/universe.py:28-36 | the column loop over the doubled rows gives every row expanded by the empty-column flags, or IndexError on a short line |
| Day11Universe.WidenedAll | 11/universe.py:28-36 | once every column of the first line is passed each line is fully expanded |
| Day11Universe.ExpandedSize | 11/universe.py:21-36 | on a rectangular grid the result has H plus empty-row-count lines, each of width W plus empty-column-count |
| Day11Universe.StepsSymmetric | 11/universe.py:46-47 | countSteps is symmetric |
| Day11Universe.StepsZero | 11/universe.py:46-47 | countSteps is 0 exactly between galaxies at the same position |
| Day11Universe.StepsTriangle | 11/universe.py:46-47 | countSteps satisfies the triangle inequality |
| Day11Universe.FindGalaxies | 11/universe.py:50-56 | the nested scan returns the galaxy list of the specification |
| Day11Universe.GalaxiesSpec | 11/universe.py:50-56 | the galaxies are exactly the '#' positions, in strictly increasing row-major order, hence each once |
| Day11Universe.BuildPairs | 11/universe.py:59-64 | the double loop returns the pair list of the specification |
| Day11Universe.PairsCount | 11/universe.py:59-64 | n galaxies give n(n-1)/2 pairs |
| Day11Universe.PairsMembers | 11/universe.py:59-64 | the pairs are exactly galaxy i with galaxy j for i < j |
| Day11Universe.CountSteps | 11/universe.py:67-72 | the accumulator equals the sum of countSteps over buildPairs' pairs |
| Day11Universe.PairsTotalSteps | 11/universe.py:67-72 | summing over the pair list equals summing galaxy by galaxy |
| Day11Universe.ExpansionMovesGalaxies | 11/universe.py:21-56 | the galaxies of the expanded universe are those of the input in the same order, each moved right by the empty columns up to it and down by the empty rows above it |
| Day11Universe.ExampleGalaxies | 11/universe.py:76-88 | the example holds nine galaxies before expansion |
| Day11Universe.ExampleEmptyRows | 11/universe.py:76-88 | rows 3 and 7 are the example's empty rows |
| Day11Universe.ExampleEmptyColumns | 11/universe.py:76-88 | columns 2, 5 and 8 are the example's empty columns |
| Day11Universe.Example | 11/universe.py:89-98 | on the example the expansion succeeds with 9 galaxies, 36 pairs and 374 steps in total |
| Day12Arrangements.ReadLine | 12/arrangements.py:10-13 | ValueError is the only failure; a line read has a record without blanks |
| Day12Arrangements.ReadLineRender | 12/arrangements.py:10-13 | a written record and its comma-separated lengths read back as that line |
| Day12Arrangements.ReadLineArity | 12/arrangements.py:11 | a line that does not split into exactly two words at the blank raises ValueError |
| Day12Arrangements.LeadingRun | 12/arrangements.py:18-23 | the longest prefix of damaged springs: all `#`, and the next character, if any, is not |
| Day12Arrangements.Resume | 12/arrangements.py:19-24 | the scan resumes strictly after `idx` and never past the end |
| Day12Arrangements.ReadSchematicValue | 12/arrangements.py:16-24 | the loop counts the run of `#` from `idx` and returns the index after the last character it looked at |
| Day12Arrangements.ReadSchematicSequence | 12/arrangements.py:27-34 | the while loop and the filter give the record's damaged-run lengths |
| Day12Arrangements.SequencePositive | 12/arrangements.py:33 | the filter leaves only positive lengths |
| Day12Arrangements.RunThenOther | 12/arrangements.py:16-24 | a run ended by another character contributes its length and the scan resumes past that character |
| Day12Arrangements.RunFirst | 12/arrangements.py:27-34 | a run followed by `.` heads the sequence of the rest |
| Day12Arrangements.LeadingOperationals | 12/arrangements.py:33 | operational springs in front leave only zeros, which are dropped |
| Day12Arrangements.SequenceLayout | 12/arrangements.py:27-34 | a record laid out as gaps and runs, with every inner gap non-empty, has exactly those runs as its sequence |
| Day12Arrangements.MatchesSpec | 12/arrangements.py:37-39 | a well-spaced layout matches its runs; a matched sequence has only positive lengths |
| Day12Arrangements.Variants | 12/arrangements.py:42-59 | 2^k variants for k unknowns, the i-th filling the unknowns from the bits of i |
| Day12Arrangements.FillStep | 12/arrangements.py:49-57 | an unknown takes `#` when its bit of i is set, `.` otherwise; other characters are copied |
| Day12Arrangements.BuildVariant | 12/arrangements.py:47-58 | the inner loop builds the variant numbered i |
| Day12Arrangements.CreateSchematicVariants | 12/arrangements.py:42-59 | the outer loop lists the variants for every i below 2^k, in order |
| Day12Arrangements.FillIsFilling | 12/arrangements.py:49-57 | every variant keeps the known springs and fills each unknown with `#` or `.` |
| Day12Arrangements.CodeFill | 12/arrangements.py:46-57 | the variant numbered i decodes back to i: no two numbers share a variant |
| Day12Arrangements.FillCode | 12/arrangements.py:46-57 | every filling of the unknowns is the variant of some number below 2^k |
| Day12Arrangements.VariantsAreFillings | 12/arrangements.py:42-59 | a string is a variant iff it is a filling of the record |
| Day12Arrangements.VariantsDistinct | 12/arrangements.py:46-58 | no variant is listed twice |
| Day12Arrangements.CountMatches | 12/arrangements.py:68-69 | the count is at most the number of variants |
| Day12Arrangements.CreateVariantLine | 12/arrangements.py:72-74 | the variant line keeps the record and the lengths and lists every variant |
| Day12Arrangements.CountArrangements | 12/arrangements.py:68-74 | the count of a created line is the number of fillings of the unknowns whose runs are the lengths |
| Day12Arrangements.SequenceExample | 12/arrangements.py:78-80 | `readSchematicSequence("##.#...###.#") == [2, 1, 3, 1]` |
| Day12Arrangements.ReadLineExample | 12/arrangements.py:83-91 | the first example line reads as record "???.###" with lengths 1, 1, 3 |
| Day13Mirrors.SplitAt | 13/mirrors.py:1-2 | the two parts put together are the row, the front holding min(idx, len) characters |
| Day13Mirrors.ReverseSpec | 13/mirrors.py:7 | `[::-1]`: character i of the reversal is character i from the end |
| Day13Mirrors.ReverseTwice | 13/mirrors.py:7 | reversing twice gives the row back |
| Day13Mirrors.IsRowMirrorSpec | 13/mirrors.py:5-11 | a row mirrors at a cut iff every character reflected across the cut, within the row, is the same |
| Day13Mirrors.SplitReversed | 13/mirrors.py:6-7 | the reversed front and the back both read outward from the cut |
| Day13Mirrors.CheckRowMirror | 13/mirrors.py:5-11 | the comparison loop returns exactly whether the row mirrors at the cut |
| Day13Mirrors.ScanRowMirrors | 13/mirrors.py:14-19 | the loop collects the cuts the row mirrors at |
| Day13Mirrors.FindRowMirrorsSpec | 13/mirrors.py:14-19 | a cut is listed iff it lies in 1 .. len-1 and the row mirrors there; the list ascends |
| Day13Mirrors.KeepMirrorsSpec | 13/mirrors.py:28 | the filter keeps exactly the candidates the row mirrors at, in order |
| Day13Mirrors.FindBlockRowMirrors | 13/mirrors.py:25-29 | the loop filters the first row's mirrors by each later row |
| Day13Mirrors.RowsMirrorStep | 13/mirrors.py:27-28 | one more row keeps a cut iff that row mirrors there too |
| Day13Mirrors.BlockRowMirrorsSpec | 13/mirrors.py:25-29 | IndexError iff the block is empty; otherwise the cuts of the first row at which every row mirrors, ascending |
| Day13Mirrors.TransposedSpec | 13/mirrors.py:33-35 | the transpose exists iff every row is as long as the first; it has a row per column, that column top to bottom |
| Day13Mirrors.FindBlockColumnMirrors | 13/mirrors.py:32-36 | the loop builds the transpose column by column and finds its row mirrors |
| Day13Mirrors.BlockColumnMirrorsSpec | 13/mirrors.py:32-36 | the column mirrors exist iff the block is transposable with a non-empty first row, and are the lines its rows reflect across |
| Day13Mirrors.ColumnsReflect | 13/mirrors.py:32-36 | every row of the transpose mirrors at c iff the block's rows reflect across line c |
| Day13Mirrors.FindBlockMirrors | 13/mirrors.py:39-40 | both kinds of mirrors of the block |
| Day13Mirrors.BlockMirrorsSpec | 13/mirrors.py:39-40 | the mirrors exist iff the block is transposable with a non-empty first row; an error is IndexError |
| Day13Mirrors.TotalValueOk | 13/mirrors.py:70-78 | the total has a value iff every block has mirrors |
| Day13Mirrors.TotalValueAppend | 13/mirrors.py:70-78 | the totals of two lists of blocks add up |
| Day13Mirrors.ValuesInErr | 13/mirrors.py:72-73 | once a block has raised, the error is the result |
| Day13Mirrors.AddMirrors | 13/mirrors.py:74-77 | the two inner loops add each row mirror and 100 times each column mirror |
| Day13Mirrors.AddBlockValue | 13/mirrors.py:72-77 | one pass of the outer loop adds the block's value or stops with its error |
| Day13Mirrors.CalculateMirrorValue | 13/mirrors.py:70-78 | the loop computes the sum of the blocks' values, or the first error |
| Day13Mirrors.RemoveMirrors | 13/mirrors.py:47-52 | each old mirror still found among the new ones is removed |
| Day13Mirrors.RemoveFirstMembers | 13/mirrors.py:49 | `list.remove` on a list without repeats leaves exactly the other elements |
| Day13Mirrors.RemoveAllSpec | 13/mirrors.py:47-52 | on ascending lists the result is the new mirrors that are not old ones, ascending |
| Day13Mirrors.FindCleanBlockMirrors | 13/mirrors.py:43-53 | the mirrors of the new block with those of the old block removed |
| Day13Mirrors.CleanMirrorsSpec | 13/mirrors.py:43-53 | a clean mirror is a mirror of the new block that the old block does not have, of each kind |
| Day13Mirrors.CalculateCleanMirrorValue | 13/mirrors.py:81-89 | the loop computes the sum of the clean mirrors' values, or the first error |
| Day13Mirrors.FlipSpec | 13/mirrors.py:98-101 | a flip swaps `#` and `.` at one position and changes nothing else |
| Day13Mirrors.FlipKeepsMirrors | 13/mirrors.py:102 | a flipped block keeps its shape, so it still has mirrors |
| Day13Mirrors.SmudgeInRow | 13/mirrors.py:96-106 | the inner loop returns the first flip in the row that passes the smudge test, and the row is restored after every failed try |
| Day13Mirrors.ClearSmudge | 13/mirrors.py:92-107 | IndexError for a block without mirrors; otherwise the first passing flip in reading order, or "No smudge found" exactly when no flip passes |
| Day13Mirrors.Blocks | 13/mirrors.py:58-67 | there is always at least one block |
| Day13Mirrors.BlocksUnblock | 13/mirrors.py:56-67 | reading the lines of blocks without empty lines gives the blocks back |
| Day13Mirrors.UnblockBlocks | 13/mirrors.py:56-67 | joining the blocks with empty lines gives the lines back |
| Day13Mirrors.GroupBlocks | 13/mirrors.py:58-67 | the loop closes a block at each empty line and extends it otherwise |
| Day13Mirrors.ReadBlocks | 13/mirrors.py:56-67 | the stripped text is split at newlines and cut into blocks |
| Day13Mirrors.SplitAtExample | 13/mirrors.py:111-112 | `splitAt("abba", 2) == ("ab", "ba")` |
| Day13Mirrors.IsRowMirrorExamples | 13/mirrors.py:113-114 | "abba" mirrors at 2 and not at 1 |
| Day13Mirrors.FindRowMirrorsExamples | 13/mirrors.py:115-116 | the row mirrors of "abba" and "abccba" are [2] and [3] |
| Day13Mirrors.BlockRowMirrorsExample | 13/mirrors.py:117 | `findBlockRowMirrors(["abba", "baab"]) == [2]` |
| Day13Mirrors.BlockColumnMirrorsExample | 13/mirrors.py:118-123 | the column mirrors of the four-row example are [2] |
| Day14Tilt.Symbol | 14/tilt.py:188-191 | the symbol written for an object is `O` for a round rock and `#` for a cube rock, the only object character of its kind |
| Day14Tilt.KindOf | 14/tilt.py:44-51 | an `O` cell is a round rock, a `#` cell a cube rock |
| Day14Tilt.BeforeSpec | 14/tilt.py:66-88 | the cell found stays on the rock's line, between 0 and the rock, passes over free cells only, and is at 0 or right after another object |
| Day14Tilt.AfterSpec | 14/tilt.py:74-96 | the same towards the far edge |
| Day14Tilt.BeforeStays | 14/tilt.py:66-118 | a rock does not move towards 0 exactly when it is at 0 or the cell before it is taken |
| Day14Tilt.AfterStays | 14/tilt.py:74-129 | a rock does not move towards the far edge exactly when it is there or the next cell is taken |
| Day14Tilt.FirstAbove | 14/tilt.py:102-109 | the index of the first object beyond the new coordinate, or the length: objects before it are not beyond |
| Day14Tilt.InsertAt | 14/tilt.py:110-111 | `list.insert` puts the element at the index and shifts the rest |
| Day14Tilt.RemoveOrdered | 14/tilt.py:99-100 | `list.remove` leaves an ordered line ordered and without the object |
| Day14Tilt.RelocateOrdered | 14/tilt.py:98-111 | `move` to a free cell keeps every row and column ordered |
| Day14Tilt.RelocateMembers | 14/tilt.py:98-111 | after `move` every object is in the row and column of its new cell |
| Day14Tilt.RelocateInPlace | 14/tilt.py:98-111 | moving a rock within its free span leaves every line exactly as it was |
| Day14Tilt.BeforeOnBoard | 14/tilt.py:66-88 | on the board the target cell is on the rock's line, free, reached without passing an object, and moving there changes no line |
| Day14Tilt.AfterOnBoard | 14/tilt.py:74-96 | the same towards the far edge |
| Day14Tilt.MeasureStep | 14/tilt.py:113-122 | moving a round rock closer to the edge lowers the termination measure of the roll |
| Day14Tilt.WeightMonotone | 14/tilt.py:174-178 | rocks each no further south weigh at least as much |
| Day14Tilt.MoveKeepsInvariant | 14/tilt.py:98-111 | `move` to a free cell on the board keeps the board invariant |
| Day14Tilt.RolledStep | 14/tilt.py:116-120 | moving a round rock along its line towards the edge keeps the roll relation with the start |
| Day14Tilt.ScanRows | 14/tilt.py:41-53 | the row scan creates one object per `O` or `#`, in reading order, in its row list and, when round, in the movable list |
| Day14Tilt.ObjectAt | 14/tilt.py:57 | `next(..., None)` finds an object of the line at the coordinate, or none when there is none |
| Day14Tilt.ObjectAtOnBoard | 14/tilt.py:57 | on an ordered board the lookup finds exactly the object at that cell |
| Day14Tilt.BuildColumn | 14/tilt.py:55-59 | column x collects, top to bottom, the object of each row at x |
| Day14Tilt.BuildColumns | 14/tilt.py:54-59 | the column pass gives one ordered column per x holding every object of that column |
| Day14Tilt.ScannedInvariant | 14/tilt.py:33-59 | what the scan and the column pass build satisfies the board invariant |
| Day14Tilt.Dots | 14/tilt.py:186-194 | a range filled with dots: nothing when the range is empty |
| Day14Tilt.RowTextSpec | 14/tilt.py:183-196 | a row renders as one character per cell up to the width |
| Day14Tilt.RenderCells | 14/tilt.py:180-197 | h lines of w characters; an object's cell shows its symbol and every other cell a dot |
| Day14Tilt.RenderOfLines | 14/tilt.py:180-197 | a board read from lines of `.`, `#` and `O` renders as those lines |
| Day14Tilt.RenderRows | 14/tilt.py:183-196 | the row loop yields one line per row |
| Day14Tilt.RowString | 14/tilt.py:184-195 | one row: dots up to each object, its symbol, dots to the width |
| Day14Tilt.PlaceObject | 14/tilt.py:185-192 | dots up to the object, its symbol, and the next free x |
| Day14Tilt.FillDots | 14/tilt.py:186-187 | the loop appends b - a dots |
| Day14Tilt.ColumnsSettledUnique | 14/tilt.py:244-246 | two boards with the same columns and cube rocks, both rolled north, put every object in the same cell |
| Day14Tilt.RenderDetermined | 14/tilt.py:180-200 | the rendering depends only on the objects' kinds and cells |
| Day14Tilt.Board.constructor | 14/tilt.py:33-59 | width is the first line's length, height the line count; each object sits on a cell showing its character and every object cell holds one |
| Day14Tilt.Board.Render | 14/tilt.py:180-197 | the rendered lines show every object's symbol on its cell and a dot elsewhere |
| Day14Tilt.Board.Str | 14/tilt.py:180-197 | the loops produce the board's text |
| Day14Tilt.Board.Copy | 14/tilt.py:61-64 | a fresh valid board that renders as this one |
| Day14Tilt.Board.Equals | 14/tilt.py:199-200 | two boards are equal iff they render the same lines |
| Day14Tilt.Board.GetFurthestFreePosNorthSpec | 14/tilt.py:66-72 | the cell is in the rock's column, between 0 and the rock, with no object in between, and at 0 or below another object |
| Day14Tilt.Board.GetFurthestFreePosSouthSpec | 14/tilt.py:74-80 | the same towards the bottom row |
| Day14Tilt.Board.GetFurthestFreePosWestSpec | 14/tilt.py:82-88 | the same along the row towards x = 0 |
| Day14Tilt.Board.GetFurthestFreePosEastSpec | 14/tilt.py:90-96 | the same towards the last column |
| Day14Tilt.Board.SettledMeaning | 14/tilt.py:113-122 | settled means every round rock is at the edge or has an object next to it in that direction |
| Day14Tilt.Board.StaysMeaning | 14/tilt.py:117-118 | a rock's furthest free cell is its own exactly when it is blocked |
| Day14Tilt.Board.Move | 14/tilt.py:98-111 | the object is taken out of its row and column, its position set, and it is inserted before the first object beyond it |
| Day14Tilt.Board.RollUntilSettled | 14/tilt.py:113-155 | the loop ends with every round rock blocked, the cube rocks unmoved, and the rocks moved only along their lines towards the edge |
| Day14Tilt.Board.RollPass | 14/tilt.py:115-120 | one pass moves each round rock in turn to its furthest free cell |
| Day14Tilt.Board.RollRock | 14/tilt.py:117-120 | a rock is moved only when its furthest free cell differs from its own |
| Day14Tilt.Board.RollNorth | 14/tilt.py:113-122 | every round rock ends blocked to the north; only y coordinates change |
| Day14Tilt.Board.RollSouth | 14/tilt.py:124-133 | every round rock ends blocked to the south; only y coordinates change |
| Day14Tilt.Board.RollWest | 14/tilt.py:135-144 | every round rock ends blocked to the west; only x coordinates change |
| Day14Tilt.Board.RollEast | 14/tilt.py:146-155 | every round rock ends blocked to the east; only x coordinates change |
| Day14Tilt.Board.Roll | 14/tilt.py:157-166 | the roll of the given direction |
| Day14Tilt.Board.SpinCycle | 14/tilt.py:168-172 | north, west, south, east in order; the cube rocks stay and the board ends settled east |
| Day14Tilt.Board.GetWeight | 14/tilt.py:174-178 | the sum over the round rocks of the row count minus their y |
| Day14Tilt.Board.WeightBounds | 14/tilt.py:174-178 | each round rock weighs between 1 and h |
| Day14Tilt.Board.RollSouthThenNorth | 14/tilt.py:241-246 | on a board rolled north, rolling south and then north gives back the same rendering |
| Day15Hash.HashFrom | 15/decode.py:3-10 | every round keeps the hash in 0..255 |
| Day15Hash.Decode | 15/decode.py:3-10 | the loop computes the left fold of the rounds from 0, a value in 0..255 |
| Day15Hash.HashFromAppend | 15/decode.py:5-9 | hashing a concatenation resumes from the hash of the first part |
| Day15Hash.ExampleRn | 15/decode.py:22 | decode("rn=1") = 30 |
| Day15Hash.ExampleCm | 15/decode.py:23 | decode("cm-") = 253 |
| Day15Hash.ExampleQp | 15/decode.py:24 | decode("qp=3") = 97 |
| Day15Hash.DecodeList | 15/decode.py:13-14 | the sum of the hashes lies between 0 and 255 per step |
| Day15Hash.DecodeListAppend | 15/decode.py:13-14 | the sum is additive over concatenation |
| Day15Hash.ReadList | 15/decode.py:17-18 | at least one step, none holding a comma, and joining them with commas gives the stripped text back |
| Day16Beams.DeltaUnit | 16/beams.py:27-45 | the four directions are four different unit steps, and the opposite direction is the opposite step |
| Day16Beams.Deflect | 16/beams.py:108-138 | a beam leaves a tile in one or two directions |
| Day16Beams.DeflectSplits | 16/beams.py:111-120 | a beam splits in two exactly when it meets a splitter side-on, and then leaves both ways across its path |
| Day16Beams.DeflectPasses | 16/beams.py:109-120 | empty tiles, and splitters met end-on, let the beam through unchanged, and nothing else does |
| Day16Beams.MirrorReverses | 16/beams.py:121-138 | a mirror turns a beam by a right angle, and a beam sent back the way it left retraces its path |
| Day16Beams.GetTile | 16/beams.py:63-66 | a tile found is the tile at an in-bounds position |
| Day16Beams.GetTileRectangular | 16/beams.py:63-66 | on a rectangular map the lookup never raises and finds a tile exactly inside [0,w) x [0,h) |
| Day16Beams.StepMoves | 16/beams.py:102-105 | the beam moves one tile in its direction and stops only at the edge of the map |
| Day16Beams.Unseen | 16/beams.py:140-146 | the kept sections are exactly those whose direction is not yet recorded on the tile, in order |
| Day16Beams.Fresh | 16/beams.py:102-146 | the next sections are exactly the onward sections of the beam's end not yet recorded, all on the map |
| Day16Beams.MarkRecords | 16/beams.py:156 | appending a direction records exactly one more section |
| Day16Beams.MarkAllRecords | 16/beams.py:154-156 | marking a list of sections records exactly those sections more |
| Day16Beams.BeamMap.NextSections | 16/beams.py:102-146 | the method gives the fresh sections after the beam's last one |
| Day16Beams.BeamMap.Grow | 16/beams.py:148-161 | records exactly the fresh sections and returns the beam unchanged when there are none, else one beam per fresh section, one position longer |
| Day16Beams.BeamMap.Round | 16/beams.py:194-203 | one pass of the while loop grows every beam on the marks the beams before it left, and sets `changed` as the sweep does |
| Day16Beams.SweepUnchanged | 16/beams.py:201-205 | a round that sets no `changed` leaves marks and beams as they were; one that sets it records a new section |
| Day16Beams.SweepKeeps | 16/beams.py:196-203 | a round never forgets a recorded section |
| Day16Beams.SweepPaths | 16/beams.py:196-203 | a round extends beams only along the light's steps, so beams stay paths |
| Day16Beams.SweepCovers | 16/beams.py:196-203 | the beams after a round pass through the old beams' sections and exactly the newly recorded ones |
| Day16Beams.SweepCloses | 16/beams.py:196-203 | after a round everything that follows an old beam's last section is recorded |
| Day16Beams.SweepFrontier | 16/beams.py:193-206 | a round keeps the loop invariant: new sections end the new beams, old beam ends are closed |
| Day16Beams.RecordedReach | 16/beams.py:204-205 | once every recorded section is closed, the recorded sections are exactly those the light can reach |
| Day16Beams.BeamMap.CreateBeams | 16/beams.py:188-208 | records (0,0) heading right; a map with an empty first row raises; at the end the beams are light paths passing through exactly the recorded sections, and a section is recorded iff the light reaches it |
| Day16Beams.EnergizedMeans | 16/beams.py:54-56 | a tile is energized exactly when some direction is recorded on it |
| Day16Beams.EnergizedReached | 16/beams.py:54-56 | after the beams are created, a tile is energized iff the light reaches it in some direction |
| Day16Beams.BeamMap.CountEnergized | 16/beams.py:211-217 | the count is the number of energized tiles |
| Day16Beams.TileOf | 16/beams.py:172-184 | an unknown character raises ValueError |
| Day16Beams.TileCharRoundTrip | 16/beams.py:172-184 | each tile character reads as its tile, and a character that reads is its tile's |
| Day16Beams.ReadTiles | 16/beams.py:167-185 | the map reads iff every character is a tile character, one row per line and one tile per character |
| Day16Beams.BeamMap.constructor | 16/beams.py:52 | a new map has no direction recorded on any tile |
| Day16Beams.ExampleReaches | 16/beams.py:188-192 | on a row of an empty tile and a vertical splitter the light reaches the first tile heading right and the splitter heading up |
| Day16Beams.ExampleSplit | 16/beams.py:188-217 | on that one-row map creating the beams energizes both tiles |
| Day17Path.DigitOf | 17/path.py:109 | a character converts iff it is a digit, to its value 0..9; otherwise ValueError |
| Day17Path.ReadMap | 17/path.py:104-110 | the map reads iff every character is a digit, and then has one row per line with each node's cost the digit at its place |
| Day17Path.NeighborsWindow | 17/path.py:73-88 | the window scan yields exactly the in-bounds cells above, left, right and below, in that order |
| Day17Path.NeighborsAdjacent | 17/path.py:73-88 | the neighbours are exactly the map cells one step away in one coordinate, at most four and all distinct, never the node itself |
| Day17Path.NewCounter | 17/path.py:120-124 | after a step the counter points the way of the step, with one more when going straight on and 1 after a turn |
| Day17Path.ChosenMembers | 17/path.py:115-128 | every chosen node is a neighbour that is unvisited, within the budget, cheaper than its best cost plus four times the highest node cost and allowed by the turn rule, with its counter pointing the way of the step |
| Day17Path.StraightLimit | 17/path.py:119-124 | a step straight on is chosen only while the counter is below three, so counters stay between one and three |
| Day17Path.LoweredBelow | 17/path.py:126-127 | the loop only ever lowers costs to reach, never below the new cost of a chosen neighbour, and keeps them non-negative |
| Day17Path.Consider | 17/path.py:116-128 | one loop step picks the neighbour by the cost test and the turn rule and lowers its cost to reach only when the new cost is lower |
| Day17Path.ConsiderAll | 17/path.py:115-129 | the loop over the neighbours gives the chosen nodes in scan order and the costs lowered by them |
| Day17Path.PathMap.constructor | 17/path.py:39 | a new map keeps its costs and has every node unreached |
| Day17Path.PathMap.GetNextNodes | 17/path.py:113-129 | the chosen neighbours with their new counters, in scan order; the costs to reach only drop, as the loop lowers them, and nothing else changes |
| Day17Path.PathMap.Step | 17/path.py:132-139 | nothing changes once the cost to reach passes the budget; otherwise costs to reach only drop |
| Day17Path.PathMap.Traverse | 17/path.py:142-146 | IndexError iff the map is empty, changing nothing; otherwise the start (0, 0) ends at cost to reach 0 |
| Day17Path.VisitShrinks | 17/path.py:136 | putting an unvisited map cell on the path takes one off the unvisited cells, which bounds the recursion |
| Day17Path.HighestSpec | 17/path.py:145 | the highest node cost bounds every node's cost and is some node's cost |
| Day18Dig.DirectionOfLetter | 18/dig.py:51-56 | the direction table knows exactly U, D, L and R, each a unit step |
| Day18Dig.DirectionOf | 18/dig.py:51-56 | the table lookup succeeds exactly on the four one-letter words |
| Day18Dig.ReadInstruction | 18/dig.py:48-60 | an instruction reads iff there are two words, the first a direction and the second an integer, and is then that direction and step count; otherwise IndexError, KeyError or ValueError, in the order the code meets them |
| Day18Dig.ReadRendered | 18/dig.py:48-60 | a written instruction `D n (#colour)` reads back as its direction and step count, whatever the colour |
| Day18Dig.ReadInstructions | 18/dig.py:63-64 | the instruction list reads iff every line reads, and then holds one instruction per line |
| Day18Dig.GetSegment | 18/dig.py:38-42 | the step loop gives the cells an instruction digs from the current cell |
| Day18Dig.SegmentWalk | 18/dig.py:38-42 | with a unit direction the dug cells are `steps` many, the first next to the current cell, each next to the one before, the last `steps` away |
| Day18Dig.TraceFromErr | 18/dig.py:76-78 | the trace raises IndexError exactly when no cell was dug yet and the next instruction digs nothing |
| Day18Dig.TraceFromWalk | 18/dig.py:76-78 | with unit directions and positive step counts the trace is one cell per step, each next to the one before |
| Day18Dig.ShiftNodes | 18/dig.py:67-70 | the shift raises ValueError exactly on no cells and otherwise keeps their number |
| Day18Dig.ShiftNodesSpec | 18/dig.py:67-70 | the shift keeps all differences between cells and leaves the smallest x and the smallest y at 0 |
| Day18Dig.GetNodes | 18/dig.py:73-79 | the instruction loop gives the shifted trace from the origin, or its error |
| Day18Dig.GetNodesSpec | 18/dig.py:73-79 | on unit directions and positive steps the result is one cell per step, shifted to non-negative coordinates, each cell next to the one before |
| Day18Dig.WalkShifted | 18/dig.py:67-70 | moving every cell by the same vector keeps a walk a walk |
| Day18Dig.Wrap | 18/dig.py:108-112 | Python's index resolution: an in-bounds position is itself, a negative one counts from the end, anything else is IndexError |
| Day18Dig.NeighborPositions | 18/dig.py:89-100 | at most four positions, all on the map |
| Day18Dig.NeighborPositionsAdjacent | 18/dig.py:89-100 | from a position on the map the result holds exactly the map cells next to it |
| Day18Dig.CountSet | 18/dig.py:102-103 | setting a false cell adds one to the map's count |
| Day18Dig.CountZero | 18/dig.py:102-103 | the count is 0 exactly when no cell is set |
| Day18Dig.BoolMap.Copy | 18/dig.py:86-87 | a fresh map with the same points |
| Day18Dig.BoolMap.Set | 18/dig.py:111-112 | the point is replaced and no other; turning a false point true adds one to the count |
| Day18Dig.Blank | 18/dig.py:118 | a rectangle of h rows of w false points |
| Day18Dig.CreateBoundaryMap | 18/dig.py:115-121 | ValueError on no nodes, IndexError exactly when a node's negative index reaches past the frame; otherwise the frame with exactly the nodes' cells set |
| Day18Dig.FrameHoldsNodes | 18/dig.py:115-121 | for nodes with non-negative coordinates every node marks its own cell and the set cells are exactly the nodes |
| Day18Dig.ClosedCovers | 18/dig.py:128-133 | a fill closed under neighbours that holds the start holds every cell on an open path from it |
| Day18Dig.FillInit | 18/dig.py:125-126 | the first visit sets a false start and pushes its neighbours, establishing the fill invariant |
| Day18Dig.FillPopSet | 18/dig.py:129-131 | popping a set cell keeps the fill invariant |
| Day18Dig.FillPopClear | 18/dig.py:129-133 | popping a false cell sets it and pushes its neighbours, keeping the invariant and leaving one false cell fewer |
| Day18Dig.FillDone | 18/dig.py:128-134 | with the stack empty the fill holds exactly the set cells and those connected to the start through false cells |
| Day18Dig.FillBoundaryMap | 18/dig.py:124-134 | IndexError exactly when the start is off the map; otherwise a fresh copy of the same shape that keeps every set cell, sets the start and, for a start on the map, sets exactly the cells connected to it through false cells |
| Day18Polygon.IsInsideSpan | 18/part2.py:26-34 | a position is on a line iff it is in the line's column between its two ends, whichever way the line points |
| Day18Polygon.EndOnLine | 18/part2.py:11-24 | the corrected far end is `length` cells down the column, and both ends lie on the line |
| Day18Polygon.EndAsWrittenOff | 18/part2.py:11-17 | for an upward line the end as written lands below the start, off the line and unequal to the true end |
| Day18Polygon.HexDirection | 18/part2.py:48-53 | each of the four table entries is a unit step |
| Day18Polygon.DecodeColour | 18/part2.py:39-55 | a decoded colour code is a unit direction; empty or non-hex codes and direction digits past 3 raise IndexError or ValueError |
| Day18Polygon.DecodeStep | 18/part2.py:42-57 | a code whose distance and digit read as hex decodes to that distance in the digit's direction |
| Day18Polygon.ReadInstruction | 18/part2.py:37-57 | fewer than three words raise IndexError; a read instruction has a unit direction |
| Day18Polygon.ReadRenderedColour | 18/part2.py:37-57 | a written plan line reads back as its hex distance and the direction of its last digit, whatever the first two words |
| Day18Polygon.ReadInstructions | 18/part2.py:60-61 | the list reads iff every line reads, and then holds one instruction per line |
| Day18Polygon.GetNodes | 18/part2.py:64-81 | the loop gives the corner before each instruction, from the origin on, dropping the last |
| Day18Polygon.CornerEdge | 18/part2.py:64-81 | on a plan that returns to the origin, each edge of the corner polygon, the closing one included, is one instruction's move |
| Day18Polygon.CornerSum | 18/part2.py:64-81 | on a closing plan a sum over the polygon's edges of a term of the edge vector is the sum over the instructions' moves |
| Day18Polygon.IsClockwise | 18/part2.py:134-153 | the loop answers whether the shoelace sum over the closed polygon is negative |
| Day18Polygon.ReverseOrientation | 18/part2.py:134-153 | walking the corners backwards negates the sum, so a clockwise polygon reversed is not clockwise |
| Day18Polygon.SquareClockwise | 18/part2.py:151-153 | the unit square walked right, down, left, up (y pointing down) is clockwise |
| Day18Polygon.InteriorDirectionTurn | 18/part2.py:156-167 | for a vertical walk the interior direction is a right turn when clockwise and a left turn otherwise, one cell across |
| Day18Polygon.GetCollision | 18/part2.py:175-192 | a collision is in the ray's row, ahead of the ray and on the line; no collision means no such cell exists |
| Day18Polygon.CreateHorizontalInteriorRay | 18/part2.py:195-199 | AssertionError iff the walk is not one step up or down; otherwise the ray starts one cell towards the interior and looks further that way |
| Day18Polygon.CountBoundary | 18/part2.py:241-248 | the loop gives the sum over the closed polygon of the cells strictly between consecutive corners |
| Day18Polygon.BoundaryOfPlan | 18/part2.py:241-248 | on a closing plan of unit moves, the boundary count plus the number of corners is the total of the steps, the length of the trench |
| Day18Polygon.CountHorizontalBoundary | 18/part2.py:251-259 | the loop gives the same sum over the horizontal edges only |
| Day18Polygon.HorizontalOfPlan | 18/part2.py:251-259 | on a closing plan of unit moves it is the sum of the left and right moves less one per such move |
| Day18Polygon.GetInstructionPoints | 18/part2.py:91-97 | the loop gives the points the instruction walks over |
| Day18Polygon.InstructionPointsWalk | 18/part2.py:91-97 | steps+1 points from the start to the start plus the move, one cell apart for a unit direction, each marked with the direction |
| Day18Polygon.GetVerticalBoundaryPoints | 18/part2.py:100-108 | the loop gives the points of the vertical instructions, walked from corner to corner |
| Day18Polygon.ReachedCorners | 18/part2.py:103-105 | with non-negative counts the walk stands on the corners after each instruction |
| Day18Polygon.VerticalPointsOnLines | 18/part2.py:100-108 | every point lies in the column of its instruction's start corner, carries that direction and is not yet considered |
| Day18Polygon.GroupByRow | 18/part2.py:112-116 | the grouping loop keys exactly the rows that hold a point, in first-appearance order, each holding that row's points in order |
| Day18Polygon.RowOrderSpec | 18/part2.py:112-116 | the row keys are distinct and are exactly the rows with a point |
| Day18Polygon.SortRows | 18/part2.py:117-118 | the second loop sorts every row by column and keeps the keys |
| Day18Polygon.SortVerticalBoundaryPoints | 18/part2.py:111-119 | the rows in first-appearance order, each the points of that row stably sorted by column |
| Day18Polygon.SortedRows | 18/part2.py:111-119 | each row is sorted by column and is a permutation of the points of that row; every point appears in its own row |
| Day18Polygon.GetVerticalLines | 18/part2.py:122-131 | the loop gives one line per vertical edge of the closed polygon |
| Day18Polygon.VerticalLinesJoin | 18/part2.py:122-131 | every line runs from a corner to the next corner along the polygon |
| Day18Polygon.VerticalLinesCover | 18/part2.py:122-131 | every vertical edge of the polygon has its line |
| Day19Workflows.Rating | 19/workflows.py:17-18 | a condition's rating lookup succeeds exactly on the names x, m, a and s; any other name raises AttributeError |
| Day19Workflows.HoldsStrict | 19/workflows.py:17-24 | `<` holds iff the rating is strictly below the value, `>` iff strictly above; a rating equal to the value never passes |
| Day19Workflows.ParseRule | 19/workflows.py:33-54 | the method reading a rule gives what the rule grammar (target after the colon, condition before it) denotes |
| Day19Workflows.ParseCondition | 19/workflows.py:42-53 | the character loop gives the letters before the first non-letter, non-operator character, the last operator seen and the integer after them |
| Day19Workflows.HeadLength | 19/workflows.py:42-52 | the loop stops at the first character that is neither a letter nor an operator, and at no earlier one |
| Day19Workflows.ConditionRoundTrip | 19/workflows.py:42-53 | a condition `name op value` with an all-letter name reads back as itself |
| Day19Workflows.RuleRoundTrip | 19/workflows.py:33-54 | every well-formed rule, conditional or not, reads back from its text |
| Day19Workflows.ExampleRule | 19/workflows.py:215 | the first rule of the example, `a<2006:qkq`, reads as target qkq under a < 2006 |
| Day19Workflows.FirstDecided | 19/workflows.py:63-67 | the rule loop stops at the first rule whose condition does not simply fail, having failed every earlier one |
| Day19Workflows.Apply | 19/workflows.py:62-68 | the rule loop gives the decision of the workflow for the part |
| Day19Workflows.DecisionSpec | 19/workflows.py:62-68 | a workflow decides a target iff some rule fires after every earlier rule failed; the target is one of its rules'; RuntimeError iff no rule fires; a workflow ending in an unconditional rule always decides |
| Day19Workflows.DecisionIgnoresLater | 19/workflows.py:63-67 | rules after the one that fires never change the decision |
| Day19Workflows.ReadWorkflow | 19/workflows.py:71-76 | a workflow that reads has at least one rule; a line without exactly one brace raises ValueError |
| Day19Workflows.WorkflowRoundTrip | 19/workflows.py:71-76 | every workflow with a plain name and at least one well-formed rule reads back from its line |
| Day19Workflows.EmptyBraces | 19/workflows.py:73-75 | empty braces still yield one rule: the unconditional rule to the empty name |
| Day19Workflows.ReadPair | 19/workflows.py:98-99 | an entry without exactly one `=`, or whose value is no integer, raises ValueError |
| Day19Workflows.LastRatingAt | 19/workflows.py:97-107 | a rating takes the value of the last entry that names it |
| Day19Workflows.LastRatingAbsent | 19/workflows.py:93-96 | a rating that no entry names stays 0 |
| Day19Workflows.ReadElements | 19/workflows.py:90-108 | the entry loop gives the part its line denotes |
| Day19Workflows.ElementsRoundTrip | 19/workflows.py:90-108 | every part reads back from its `{x=..,m=..,a=..,s=..}` line |
| Day19Workflows.MissingRatings | 19/workflows.py:93-107 | a line that names only `m` yields 0 for x, a and s |
| Day19Workflows.FindWorkflow | 19/workflows.py:119 | the lookup yields a workflow of that name from the list, and fails (StopIteration) iff none has that name |
| Day19Workflows.FindIndex | 19/workflows.py:119 | the position found is the first workflow with the name |
| Day19Workflows.RunWorkflow | 19/workflows.py:125-133 | an accepted run returns the part itself |
| Day19Workflows.RunIffRoute | 19/workflows.py:125-133 | a run from a workflow accepts (rejects) a part iff a route of at most depth+1 workflows leads from it, each sending the part to the next, to one that sends it to A (R) |
| Day19Workflows.RunDeeper | 19/workflows.py:125-133 | a run that stays within its depth bound gives the same result under a larger bound |
| Day19Workflows.AcceptedInSpec | 19/workflows.py:116-123 | the accepted list succeeds iff every run succeeds, and is then the parts a run accepts, in input order |
| Day19Workflows.AcceptedPrefixErr | 19/workflows.py:118-122 | once a run raises, later parts do not change the error |
| Day19Workflows.Accepted | 19/workflows.py:116-123 | the loop over the parts gives the accepted list |
| Day19Workflows.FirstBlank | 19/workflows.py:140-146 | the workflow block ends at the first blank line |
| Day19Workflows.ProblemSetOf | 19/workflows.py:136-153 | a read problem set has one workflow per line before the first blank line and one part per line after it |
| Day19Workflows.ReadWorkflowLines | 19/workflows.py:140-146 | the workflow loop reads the lines before the first blank line and stops at the first error |
| Day19Workflows.WorkflowLinesErr | 19/workflows.py:142-146 | an unreadable workflow line before the blank line is the error of the whole read |
| Day19Workflows.ReadPartLines | 19/workflows.py:148-151 | the part loop reads every line after the blank one |
| Day19Workflows.ReadProblemSet | 19/workflows.py:136-153 | the method gives the problem set its text denotes |
| Day19Workflows.GetLeaves | 19/workflows.py:162-168 | the method gives the leaves of the tree in order |
| Day19Workflows.LeavesTerminal | 19/workflows.py:164-165 | every leaf is a terminal (string) node |
| Day19Workflows.PathsSpec | 19/workflows.py:170-180 | there is one path per leaf, and each runs from the node down to its leaf through parent-child links |
| Day19Workflows.BuildChildWellBuilt | 19/workflows.py:191-202 | a child built for a target is named by that target and is well built |
| Day19Workflows.BuildNodeWellBuilt | 19/workflows.py:186-203 | a built node carries its workflow and is well built: one child per rule, named by the rule's target |
| Day19Workflows.WellBuiltLeaves | 19/workflows.py:186-203 | every leaf of a well-built tree is A or R |
| Day19Workflows.BuildWorkflowTreeSpec | 19/workflows.py:206-210 | without an `in` workflow the build raises StopIteration; a built tree is rooted at `in`, well built, and ends only in A and R |
| Day20Pulse.KindOf | 20/pulse.py:106-110 | the type lookup succeeds exactly on "%", "&" and "broadcaster", else KeyError |
| Day20Pulse.LabelAvoids | 20/pulse.py:94-103 | a module name holds no blank, comma or dash, so a written line splits where it was joined |
| Day20Pulse.ChildrenText | 20/pulse.py:103 | names free of commas and dashes, joined by ", ", split back into themselves |
| Day20Pulse.NodeTextReads | 20/pulse.py:96-101 | the module part of a written line reads back as the module's type and name |
| Day20Pulse.LineSplits | 20/pulse.py:95 | a written line splits at " -> " into exactly the module part and the children part |
| Day20Pulse.ReadNodeRoundTrip | 20/pulse.py:94-112 | `readNode` of a written module gives that module back: type, name and children |
| Day20Pulse.ReadNodeNoArrow | 20/pulse.py:95 | a line without " -> " cannot be unpacked into two parts: ValueError |
| Day20Pulse.ReadNodeUnknownType | 20/pulse.py:99-110 | a module part that is not "broadcaster" and starts with neither '%' nor '&' raises KeyError |
| Day20Pulse.Sends | 20/pulse.py:47-87 | one pulse of the same level from the module to each child, in order |
| Day20Pulse.ReactCounts | 20/pulse.py:26-31 | each received pulse adds one to exactly the counter of its level |
| Day20Pulse.ReactPlain | 20/pulse.py:26-31 | a plain module only counts, and sends nothing |
| Day20Pulse.ReactFlipFlop | 20/pulse.py:42-49 | a flip-flop ignores high pulses; a low pulse flips it and it sends its new state to each child in order |
| Day20Pulse.FlipFlopTwice | 20/pulse.py:42-49 | two low pulses bring a flip-flop back to its state, the second sending the opposite of the first |
| Day20Pulse.ReactConjunction | 20/pulse.py:68-75 | a conjunction records the latest level from the origin, and sends low to every child exactly when all recorded inputs are high |
| Day20Pulse.ConjunctionLastInput | 20/pulse.py:68-75 | with every other input high, a conjunction sends low after a high pulse and high after a low one |
| Day20Pulse.ReactBroadcaster | 20/pulse.py:83-88 | the broadcaster forwards the pulse unchanged to each child, in order |
| Day20Pulse.Deliver | 20/pulse.py:159-160 | delivering a pulse changes only the receiver's state |
| Day20Pulse.Run | 20/pulse.py:157-160 | the pulse loop (pop the last pulse, deliver it, push what is sent) keeps every module's state well formed, and delivers at least one pulse from a non-empty stack |
| Day20Pulse.PressMany | 20/pulse.py:162-164 | repeated presses keep the same modules |
| Day20Pulse.PressManyStep | 20/pulse.py:163-164 | one more press continues from the state the earlier presses left |
| Day20Pulse.PressManyStuck | 20/pulse.py:163-164 | once a press does not finish within the bound, no longer series of presses does |
| Day20Pulse.PressStarts | 20/pulse.py:157 | a press starts from the button's low pulse to the broadcaster, with nothing counted yet |
| Day20Pulse.RunAdvance | 20/pulse.py:158-160 | one delivery moves one pulse from the run still to come into the count already made |
| Day20Pulse.SumsSnoc | 20/pulse.py:169-171 | the sums over one more module add its two counters |
| Day20Pulse.SumsUpdate | 20/pulse.py:169-171 | changing one module's counters changes the sums by that change alone |
| Day20Pulse.RunCounts | 20/pulse.py:156-172 | after a run the counters of all modules together have grown by exactly the number of pulses delivered |
| Day20Pulse.PressDelivers | 20/pulse.py:156-160 | a completed press delivers at least the button's own pulse |
| Day20Pulse.FileNode | 20/pulse.py:118-119 | filing a module under its name keeps every module under its own name and each name listed once, in first-filed order |
| Day20Pulse.FileAllIndexed | 20/pulse.py:115-120 | after filing all modules every module is under its own name and each name is listed once |
| Day20Pulse.FileAllCovers | 20/pulse.py:117-119 | every module read is filed under its name; a later line of the same name replaces it |
| Day20Pulse.ReadNodesSpec | 20/pulse.py:115-120 | `readNodes` fails exactly when one line does; otherwise each module is filed under its name, listed once, and every line's module name is there |
| Day20Pulse.ChildListHas | 20/pulse.py:127-128 | every child of a listed module is in the list of children visited |
| Day20Pulse.AddPlainIndexed | 20/pulse.py:127-131 | adding plain modules keeps every module under its name and listed once, after the modules there were |
| Day20Pulse.AddPlainAdds | 20/pulse.py:127-131 | adding plain modules keeps the modules there were, adds only plain modules with no children, and makes every visited child a module |
| Day20Pulse.TopologyOfClosed | 20/pulse.py:123-131 | the network `connectNodes` builds is closed: every child is a module; the modules read are kept and every other module is plain |
| Day20Pulse.Occurrences | 20/pulse.py:133-137 | a module is listed as a parent once for each time it names the child |
| Day20Pulse.ParentsOfSpec | 20/pulse.py:133-137 | a module is a parent of v exactly when it is listed and names v as a child |
| Day20Pulse.ConfiguredSpec | 20/pulse.py:63-65 | a configured conjunction remembers every parent as low, and its other inputs as they were |
| Day20Pulse.InitialInputs | 20/pulse.py:63-65 | after connecting, a conjunction remembers exactly its parents, each as low; no other module remembers anything, nothing is counted and every flip-flop is off |
| Day20Pulse.Node.constructor | 20/pulse.py:11-17 | a module as `readNode` builds it: no links, nothing counted, off, no inputs |
| Day20Pulse.Node.SendAll | 20/pulse.py:47-87 | the loop over the children sends one pulse of the level to each, in order |
| Day20Pulse.Node.Receive | 20/pulse.py:26-88 | `receive` leaves the links alone and updates the state and sends exactly what the module's class does |
| Day20Pulse.Node.UpdateConfig | 20/pulse.py:23-65 | a conjunction remembers each parent as low; other modules do nothing |
| Day20Pulse.NamedDistinct | 20/pulse.py:115-120 | modules filed under their own names are distinct objects |
| Day20Pulse.CommandCenter.DeliverPulse | 20/pulse.py:159-160 | `stack.extend(dst.receive(pulse, src))` changes the receiver as the pure delivery does, and no other module |
| Day20Pulse.CommandCenter.PressButton | 20/pulse.py:150-160 | KeyError without a broadcaster, AssertionError when it is not one, with no module changed; otherwise the pulses are delivered until the stack is empty, leaving the state the pure press gives |
| Day20Pulse.CommandCenter.PressButtonMulti | 20/pulse.py:162-164 | `times` presses leave the state the repeated pure press gives; the broadcaster errors of the first press come back unchanged |
| Day20Pulse.CommandCenter.CountPulses | 20/pulse.py:166-172 | the low pulses counted by all modules times the high ones |
| Day20Pulse.BlueprintsUpdate | 20/pulse.py:119 | filing one more module object files its blueprint |
| Day20Pulse.FileAllSnoc | 20/pulse.py:117-119 | one more line read is filed under its module's name, replacing an earlier one of that name |
| Day20Pulse.ReadNodesInto | 20/pulse.py:115-120 | the loop gives a new unlinked module object for each name, with the blueprints the pure `readNodes` gives, or the first failing line's error |
| Day20Pulse.AddPlainSnoc | 20/pulse.py:129-131 | one more child name adds a plain module exactly when no module has that name |
| Day20Pulse.ChildListSnoc | 20/pulse.py:127-128 | the child names of one more module follow those of the modules before |
| Day20Pulse.AddPlainAppend | 20/pulse.py:127-131 | adding plain modules for two lists of names in turn is adding them for their concatenation |
| Day20Pulse.AddPlainNodes | 20/pulse.py:128-131 | the inner loop adds a new plain module object for each child name with no module yet, as the pure addition does |
| Day20Pulse.AddPlainNext | 20/pulse.py:127-131 | the modules added after one more module's children follow from those added before |
| Day20Pulse.AddMissingNodes | 20/pulse.py:127-131 | the second loop adds new unlinked plain modules exactly as the pure addition does and keeps the modules read |
| Day20Pulse.AddLinkSpec | 20/pulse.py:136-137 | one link appends the child to the module's children and the module to the child's parents |
| Day20Pulse.LinkAllSpec | 20/pulse.py:134-137 | linking a module to its children gives it those children, and each child the module once per mention |
| Day20Pulse.WireSpec | 20/pulse.py:133-137 | wiring unlinked modules gives each module its blueprint's children and as parents exactly the listed modules naming it, once per mention |
| Day20Pulse.NamedInjective | 20/pulse.py:115-120 | modules filed under their own names are distinct objects |
| Day20Pulse.LinkPair | 20/pulse.py:135-137 | the body of the inner loop adds one link on the objects and changes no state |
| Day20Pulse.LinkChildren | 20/pulse.py:134-137 | the inner loop links a module to each child its blueprint names |
| Day20Pulse.LinkNodes | 20/pulse.py:133-137 | the third loop leaves the links the pure wiring gives, and no state changed |
| Day20Pulse.WireSnoc | 20/pulse.py:133-137 | wiring one more module links it to its children after the modules before |
| Day20Pulse.ConfigureSpec | 20/pulse.py:139-140 | configuring every listed module once configures every listed conjunction and changes nothing else |
| Day20Pulse.ConfigureOne | 20/pulse.py:140 | one `updateConfig` changes only that module's state, and only when it is a conjunction |
| Day20Pulse.ConfigureNodes | 20/pulse.py:139-140 | the fourth loop leaves the states the pure configuration gives and the links as they were |
| Day20Pulse.ConfigureSnoc | 20/pulse.py:139-140 | configuring one more module follows the modules before |
| Day20Pulse.IndexedListed | 20/pulse.py:115-120 | every listed name is a module |
| Day20Pulse.WireNodes | 20/pulse.py:133-140 | after the last two loops every module has its blueprint's children, its parents, and its initial state |
| Day20Pulse.ConnectNodes | 20/pulse.py:123-142 | `connectNodes` fails exactly when reading does, with its error; otherwise the modules are the network read plus plain ones, linked both ways and configured, all new objects |
| Day21Bits.Rem8 | 21/main.cpp:40 | C++ `x % 8` truncates toward zero: the remainder has the sign of `x` and `x == 8·(x / 8) + r` |
| Day21Bits.BitSetAnd | 21/main.cpp:116 | digit i of `a & b` is set exactly when it is set in both |
| Day21Bits.BitSetOr | 21/main.cpp:124 | digit i of the bitwise or of a and b is set exactly when it is set in either |
| Day21Bits.BitSetNot | 21/main.cpp:51 | digit i of `~a` is set exactly when it is clear in `a` |
| Day21Bits.BitSetPow2 | 21/main.cpp:40 | `1 << k` has digit k set and no other |
| Day21Bits.WithBitSpec | 21/main.cpp:48-52 | or-ing 1 << k sets and `&= ~(1 << k)` clears bit k, leaving the other seven bits alone |
| Day21Bits.NibbleLookupCounts | 21/main.cpp:17-20 | each entry of the sixteen-entry table is the number of set bits of its index |
| Day21Bits.OnesSplit | 21/main.cpp:22 | a byte's set bits are those of `byte & 0x0F` plus those of `byte >> 4` |
| Day21Bits.CountBits | 21/main.cpp:16-23 | `countBits` is the number of set bits of the byte, at most 8 |
| Day21Bits.OnesWithBit | 21/main.cpp:48-52 | changing one bit changes the count of set bits by exactly that bit |
| Day21Bits.PopCountWithBit | 21/main.cpp:48-52 | setting a clear bit adds one set bit, clearing a set bit removes one, anything else keeps the count |
| Day21Bits.ByteIndexSound | 21/main.cpp:108-112 | with the corrected stride `w/8 + 1` every cell of a w by h map has its own byte and bit, inside the `(w/8 + 1)·h` bytes allocated |
| Day21Bits.RowInside | 21/main.cpp:109 | a byte of row y lies inside the h rows allocated |
| Day21Bits.RowsApart | 21/main.cpp:109 | rows `w/8 + 1` bytes apart never share a byte |
| Day21Bits.LookupAt | 21/main.cpp:35-41 | `get` succeeds iff the byte index is within the bytes and the bit index is not negative; it reads bit `x % 8`; past the end it throws "out of bounds" |
| Day21Bits.StoreAt | 21/main.cpp:43-53 | `set` succeeds exactly where `get` does and fails with the same error; only bit `x % 8` of byte idx changes, to `value` |
| Day21Bits.LookupStore | 21/main.cpp:31-53 | after `set(x, y, v)` succeeds, `get(x, y)` gives v; `set` succeeds exactly where `get` does |
| Day21Bits.LookupStoreOther | 21/main.cpp:43-57 | with the corrected index, writing a cell of the map leaves every other cell as it was |
| Day21Bits.StoreKeepsOthers | 21/main.cpp:43-57 | with the corrected index, writing a cell of a w by h map succeeds and leaves all the other cells as they were |
| Day21Bits.LookupInside | 21/main.cpp:35-41 | every cell of a w by h map can be read |
| Day21Bits.Zeros | 21/main.cpp:111 | `resize` gives n zero bytes |
| Day21Bits.AsWrittenCellsCollide | 21/main.cpp:55-57 | with `y * w/8 + x/8` on a 9 by 9 map, (8, 0) and (0, 1) share byte 1 bit 0: setting (8, 0) makes (0, 1) read as set |
| Day21Bits.TotalZeros | 21/main.cpp:100-112 | a new map counts no set cell |
| Day21Bits.TotalUpdate | 21/main.cpp:100-106 | replacing one byte changes the count by the difference of the two bytes' set bits |
| Day21Bits.TotalStore | 21/main.cpp:43-53 | after `set`, the count is one more when a clear cell is set, one fewer when a set cell is cleared, the same otherwise |
| Day21Bits.LookupAnd | 21/main.cpp:113-119 | on maps of one layout, each cell of `lhs & rhs` is the conjunction of the two cells |
| Day21Bits.LookupOr | 21/main.cpp:121-127 | on maps of one layout, each cell of the or of lhs and rhs is the disjunction of the two cells |
| Day21Bits.Map.constructor | 21/main.cpp:108-112 | a new map has the given size and `(w/8 + 1)·h` zero bytes |
| Day21Bits.Map.Set | 21/main.cpp:43-65 | with the corrected index, the bytes become those of the pure `set`, or stay unchanged with its error; afterwards (x, y) reads `value`, every cell of the map succeeds and no other cell changes |
| Day21Bits.Map.Neighbors | 21/main.cpp:67-87 | the list holds exactly the cells of the map next to (x, y), without diagonals, in the loops' column-major order, at most four |
| Day21Bits.Window | 21/main.cpp:70-73 | every neighbour inside the map lies within the clamped window the loops scan |
| Day21Bits.ListedStep | 21/main.cpp:77-83 | a scanned cell is appended exactly when it is a neighbour, keeping the order |
| Day21Bits.ListedAll | 21/main.cpp:75-86 | after the last column every neighbour inside the map is listed, and nothing else |
| Day21Bits.And | 21/main.cpp:113-119 | `lhs & rhs` is a new map of `lhs`'s size holding the bytewise and; reading past the end of a smaller `rhs` is an error |
| Day21Bits.Or | 21/main.cpp:121-127 | the or of lhs and rhs is a new map of `lhs`'s size holding the bytewise or; reading past the end of a smaller `rhs` is an error |
| Day21Bits.CountSet | 21/main.cpp:100-106 | `int(m)` is the number of set bits over all bytes |
| Day21Bits.Extreme.constructor | 21/main.cpp:156 | a pair holds the two ends given |
| Day21Bits.Widen | 21/main.cpp:134-143 | after seeing x the pair covers x; an end other than -1 only moves outwards; each end is x or its old value |
| Day21Bits.WidenHull | 21/main.cpp:134-143 | from (-1, -1), widening by every coordinate seen gives the least and the greatest of them |
| Day21Bits.UpdateExtremeRow | 21/main.cpp:134-143 | the row's pair becomes the widening of its old pair by x |
| Day21Bits.UpdateExtremeColumn | 21/main.cpp:145-154 | the column's pair becomes the widening of its old pair by y |
| Day21Steps.TypeOf | 21/steps.py:6-9 | `TileType(char)` succeeds exactly on '.', '#' and 'S', and raises ValueError on any other character |
| Day21Steps.TypeCharRoundTrip | 21/steps.py:6-9 | a tile type's character reads back as that type, and a character that reads is that type's character |
| Day21Steps.ReadRow | 21/steps.py:123-128 | a line reads iff all its characters are tile characters; tile x of row y sits at (x, y) and is drawn by the line's x-th character |
| Day21Steps.ReadRows | 21/steps.py:121-129 | the lines read iff every character of every line is a tile character, and then the rows draw the lines |
| Day21Steps.ReadMap | 21/steps.py:119-130 | `readMap` succeeds iff every character is '.', '#' or 'S', else ValueError; each tile is drawn by its character and sits at its own position |
| Day21Steps.FindByType | 21/steps.py:70-75 | `findByType` raises ValueError iff no tile has the type; otherwise it returns the first such tile in row-major order, at its own position |
| Day21Steps.FindStart | 21/steps.py:77-78 | `findStart` returns a start tile, and fails iff the map has none |
| Day21Steps.NeighborPositions | 21/steps.py:49-65 | the positions visited are exactly the in-map positions one step away, without diagonals, at most four and no repeats |
| Day21Steps.NeighborOrder | 21/steps.py:56-64 | the row-major scan gives the neighbours above, left, right and below, in that order |
| Day21Steps.Neighbors | 21/steps.py:49-65 | `neighbors` returns the tiles at those positions, in that order |
| Day21Steps.NeighborTiles | 21/steps.py:49-65 | on a read map, a tile is among the neighbours iff it is the map's tile one step away |
| Day21Steps.NonWallNeighbors | 21/steps.py:67-68 | `nonWallNeighbors` keeps exactly the neighbours that are not rocks |
| Day21Steps.NonWallNeighborTiles | 21/steps.py:67-68 | on a read map, the non-rock neighbours are exactly the open tiles one step away |
| Day21Steps.TotalLower | 21/steps.py:92-93 | lowering one entry lowers the sum of all entries, so the search terminates |
| Day21Steps.Initial | 21/steps.py:81-82 | the starting grid has the map's shape, 0 at the start and `sys.maxsize` elsewhere |
| Day21Steps.InitialSound | 21/steps.py:81-83 | the starting grid and the stack `[start]` already keep every invariant of the search |
| Day21Steps.LowerBounded | 21/steps.py:92-93 | lowering an open neighbour to one more than `pos` keeps the start at 0, every entry within 0..`sys.maxsize` and rocks unreached |
| Day21Steps.LowerSupported | 21/steps.py:92-93 | after lowering, every reached tile but the start still has a neighbour with a smaller entry |
| Day21Steps.LowerPending | 21/steps.py:92-95 | every stacked tile stays expandable, and the lowered tile is pushed exactly when its entry is under `max_dist` |
| Day21Steps.LowerRelaxed | 21/steps.py:92-93 | lowering another tile's entry keeps a relaxed tile relaxed |
| Day21Steps.LowerCovered | 21/steps.py:92-95 | every expandable tile but `pos` stays relaxed or stacked |
| Day21Steps.LowerNext | 21/steps.py:92-93 | lowering a neighbour leaves `pos` as it was and brings that neighbour within one step of `pos` |
| Day21Steps.LowerMidway | 21/steps.py:92-95 | lowering the k-th neighbour keeps the loop invariant and lowers the sum of the entries |
| Day21Steps.AtMostNext | 21/steps.py:92 | a neighbour that is closed, or already within one step of `pos`, extends the bound to it |
| Day21Steps.SkipMidway | 21/steps.py:88-92 | skipping a rock, or a neighbour already close enough, keeps the loop invariant |
| Day21Steps.ExpandDone | 21/steps.py:86-95 | after all of `pos`'s neighbours, every open neighbour is at most one step further than `pos` |
| Day21Steps.CoveredRelaxed | 21/steps.py:86-95 | once `pos` is relaxed, every expandable tile is relaxed or stacked |
| Day21Steps.NeighborsOfMap | 21/steps.py:86 | on a read map, `neighbors(pos)` gives the tiles one step away, at their own positions |
| Day21Steps.RelaxNeighbor | 21/steps.py:87-95 | one turn over a neighbour keeps the loop invariant; the sum of the entries never grows, and it stays equal only when the stack is unchanged |
| Day21Steps.RelaxNeighbors | 21/steps.py:86-95 | after `pos`'s neighbours the entries stay bounded and supported, the stacked tiles expandable, and `pos` is relaxed |
| Day21Steps.DistanceMap | 21/steps.py:80-96 | `distanceMap` raises IndexError iff the start is off the map; otherwise the start is at 0, every entry lies within 0..`sys.maxsize`, rocks are unreached, every reached tile has a neighbour with a smaller entry, and every tile it expands has each open neighbour at most one step further |
| Day21Steps.CoveredDone | 21/steps.py:84 | with the stack empty, every expandable tile is relaxed |
| Day21Steps.PopCovered | 21/steps.py:85 | popping the last tile keeps the others stacked; the popped tile is expandable and the only one not covered |
| Day21Steps.ReachedOpen | 21/steps.py:88-89 | a reached tile other than the start is not a rock |
| Day21Steps.WalkExtend | 21/steps.py:86-95 | a walk extends by an open tile next to its end |
| Day21Steps.ReachedByWalk | 21/steps.py:80-96 | every reached tile ends a walk from the start over open tiles no longer than its entry |
| Day21Steps.WalkBound | 21/steps.py:80-96 | a walk from the start of at most `max_dist` steps (or one step) ends on a tile whose entry is at most its length: within `max_dist` the entries are shortest walk lengths |
| Day21Steps.RelaxedStep | 21/steps.py:86-95 | one step past an expanded tile within n - 1 lands on an entry within n |
| Day21Steps.FiniteCellsNext | 21/steps.py:100-103 | taking one more entry into account adds its position exactly when it is not `sys.maxsize` |
| Day21Steps.FiniteCellsRow | 21/steps.py:100-102 | finishing a row is the same as starting the next one |
| Day21Steps.CountFiniteDist | 21/steps.py:98-104 | `countFiniteDist` is the number of positions whose entry is not `sys.maxsize` |
| Day21Steps.FiniteCellsReached | 21/steps.py:98-104 | on a bounded grid those positions are exactly the reached tiles |
| Day21Steps.StepAdd | 21/steps.py:109-110 | adding one tile's non-rock neighbours extends the round's set by exactly the open tiles next to it |
| Day21Steps.StepMember | 21/steps.py:109-110 | an open tile next to a tile of the set is in the next round's set |
| Day21Steps.StepOpen | 21/steps.py:109-110 | every tile of the next round's set is open and next to a tile of the set |
| Day21Steps.StepFrom | 21/steps.py:108-111 | one round yields exactly the open tiles next to some tile of the set |
| Day21Steps.Reachable | 21/steps.py:106-113 | `reachable` raises UnboundLocalError iff `steps <= 0`; otherwise it returns the tiles reached after exactly `steps` rounds |
| Day21Steps.AdjacentManhattan | 21/steps.py:49-65 | one step changes the taxicab distance from any fixed tile by exactly one |
| Day21Steps.ReachParity | 21/steps.py:106-113 | a tile reached after k rounds is at most k steps from the start, by an even difference |
| Day21Steps.ReachGrowsFirst | 21/steps.py:106-113 | from an open start, a tile reached after one round is reached again after three |
| Day21Steps.ReachGrows | 21/steps.py:106-113 | from an open start, a tile reached after k ≥ 1 rounds is reached again after k + 2 |
| Day21Steps.ReachWalk | 21/steps.py:106-113 | a tile reached after k rounds ends a k-step walk from the start over open tiles |
| Day21Steps.WalkReach | 21/steps.py:106-113 | the end of every walk over open tiles is reached after as many rounds as the walk has steps |
| Day22Bricks.CellsLength | 22/bricks.py:29-35 | `coords` lists (Δx+1)(Δy+1)(Δz+1) cells, none when an end lies below its start |
| Day22Bricks.CellsMembers | 22/bricks.py:29-35 | a cell is listed iff the box covers it |
| Day22Bricks.CellsIncreasing | 22/bricks.py:31-34 | each cell is listed once, x outermost and z innermost |
| Day22Bricks.VerticalCells | 22/bricks.py:232-234 | the example's vertical brick lists z = 0, 1, 2 at (0, 0) |
| Day22Bricks.Coords | 22/bricks.py:29-35 | the three nested loops append exactly the cells of the box in that order |
| Day22Bricks.ReadPart | 22/bricks.py:48-49 | `int(parts[k])`: IndexError when the part is missing, ValueError when it is no number |
| Day22Bricks.ReadCorner | 22/bricks.py:48-49 | a corner reads iff its first three parts read, left to right; later parts are ignored |
| Day22Bricks.ReadBrick | 22/bricks.py:44-51 | two corners around exactly one `~`, otherwise ValueError; the brick is named after its line number |
| Day22Bricks.ReadBricks | 22/bricks.py:54-55 | succeeds iff every line reads, with brick k from line k |
| Day22Bricks.ReadBricksDistinct | 22/bricks.py:37-50 | the bricks read are pairwise different under `__eq__`, which compares names |
| Day22Bricks.CornerParts | 22/bricks.py:46-47 | a written corner splits at `,` into its three numbers |
| Day22Bricks.ReadCornerText | 22/bricks.py:48-49 | a written corner reads back as the corner |
| Day22Bricks.ReadBrickText | 22/bricks.py:44-51 | a written brick reads back with its corners, named after its line |
| Day22Map.MaxEnd | 22/bricks.py:93-100 | `max` of a non-empty list: no brick's value exceeds it and some brick's equals it |
| Day22Map.BuildMap | 22/bricks.py:84-91 | `ValueError` exactly when there are no bricks; otherwise the bricks sorted stably by start height, the map one wider than the largest end corner on each axis, and every layer built |
| Day22Map.ExtentPlaced | 22/bricks.py:87-89 | the map so sized holds every brick |
| Day22Map.SortedSound | 22/bricks.py:86 | sorting keeps the bricks straight and apart |
| Day22Map.BrickMap.constructor | 22/bricks.py:84-91 | the constructed map is the sorted bricks with their extent and layers |
| Day22Map.BrickMap.SupportGiven | 22/bricks.py:157-176 | exactly the other bricks on the tiles right beneath brick id; none on the ground |
| Day22Map.BrickMap.SupportedBy | 22/bricks.py:178-197 | exactly the other bricks on the tiles right above brick id; none from the top layer |
| Day22Map.BrickMap.CanDisintegrate | 22/bricks.py:199-205 | true iff no brick resting on brick id has it as its only support |
| Day22Map.BrickMap.CountDisintegratable | 22/bricks.py:207-212 | the number of bricks that can be taken away |
| Day22Map.BrickMap.LowerBrick | 22/bricks.py:132-140 | an unsupported brick is lowered one layer and the tiles are cleared and set to match |
| Day22Map.BrickMap.Turn | 22/bricks.py:130-140 | a brick falls one layer exactly when nothing supports it |
| Day22Map.BrickMap.UpdateLayer | 22/bricks.py:124-141 | nothing at z = 0; otherwise each brick starting at z takes its turn in order, and the answer says whether one fell |
| Day22Map.BrickMap.SettleAll | 22/bricks.py:130-141 | the loop gives the turns of the listed bricks in order; when it reports a change the bricks sit strictly lower in total, otherwise nothing moved |
| Day22Map.TurnStep | 22/bricks.py:130-131 | after one brick's turn the rest of the pass is the remaining turns, and the later bricks of the layer still start at that layer |
| Day22Map.BrickMap.Update | 22/bricks.py:143-148 | the layer passes from the bottom up; true iff some brick fell |
| Day22Map.BrickMap.Run | 22/bricks.py:150-155 | bricks only move straight down and, when the loop ends, every brick lies on the ground or on another |
| Day22Map.ExampleRemovable | 22/bricks.py:236-240 | the flat brick rests on the vertical one alone |
| Day22Map.ExampleMap | 22/bricks.py:238-241 | the top brick can be taken away, the bottom one not, one in all |
| Day22Stack.SetTile | 22/bricks.py:120-140 | setting one tile changes that tile and no other |
| Day22Stack.OwnerIn | 22/bricks.py:117-120 | the last brick covering a cell, as later writes overwrite earlier ones |
| Day22Stack.OwnerOfCover | 22/bricks.py:117-120 | without overlaps a cell's owner is the one brick covering it |
| Day22Stack.CarriedSupport | 22/bricks.py:157-197 | brick j rests on brick i iff brick i carries brick j |
| Day22Stack.GroundSupport | 22/bricks.py:162-163 | a brick on the ground rests on nothing |
| Day22Stack.TopCarried | 22/bricks.py:183-184 | a brick reaching the top layer carries nothing |
| Day22Stack.BricksAtIn | 22/bricks.py:102-106 | the bricks passing the layer test, in list order |
| Day22Stack.CreateLayer | 22/bricks.py:108-122 | an empty h × w layer in which every tile crossed by a brick at z holds its owner |
| Day22Stack.CreateLayers | 22/bricks.py:91 | every layer holds each cell's owner |
| Day22Stack.FlatSupport | 22/bricks.py:169-174 | under a flat brick the occupants beneath its cells are the bricks it rests on |
| Day22Stack.FlatCarried | 22/bricks.py:190-195 | over a flat brick the occupants above its cells are the bricks resting on it |
| Day22Stack.VerticalSupport | 22/bricks.py:164-168 | under a vertical brick the one tile beneath its foot holds its support, if any |
| Day22Stack.VerticalCarried | 22/bricks.py:185-189 | over a vertical brick the one tile above its top holds the brick resting on it, if any |
| Day22Stack.CollectOccupants | 22/bricks.py:171-195 | the loop collects the other bricks on the tiles next to the cells |
| Day22Stack.ClearCells | 22/bricks.py:136-137 | every listed tile is emptied and no other tile changes |
| Day22Stack.FillCells | 22/bricks.py:139-140 | every listed tile is given to the brick and no other tile changes |
| Day22Falling.SettleLowers | 22/bricks.py:130-140 | each listed brick takes its turn once: it stays or falls exactly one layer |
| Day22Falling.LayerPassLowers | 22/bricks.py:124-141 | a layer pass moves only bricks starting at z, and by exactly one layer |
| Day22Falling.PassHeight | 22/bricks.py:143-148 | a pass changes nothing or lowers the total height, so `run` ends |
| Day22Falling.SettleFixed | 22/bricks.py:130-131 | when the turns change nothing every listed brick has a support |
| Day22Falling.Settled | 22/bricks.py:150-155 | after a pass that changes nothing every brick lies on the ground or on another brick |
| Day22Falling.PassDrops | 22/bricks.py:143-148 | a pass only moves bricks straight down |
| Day22Falling.FallSound | 22/bricks.py:131-135 | an unsupported brick falls without touching another brick or leaving the map |
| Day22Falling.FallAgrees | 22/bricks.py:136-140 | after the fall the tiles hold the new owners |
| Day22Falling.RemovableCount | 22/bricks.py:207-212 | the count is at most the number of bricks |
| Day22Falling.RemovableMeaning | 22/bricks.py:199-205 | a brick can be taken away iff it is no brick's only support |

## Left out

- The drivers (`*/main.py`, `17/part1.py`, `17/calculate_naive_costs.py`, the `main` functions of the C++ and Rust files): they only read files, print and time runs.
- Day 24 (`24/trajectory.py`): it computes with floating point and square roots.
- Debug rendering and progress prints (`NiceMap`, `NiceRegion`, the `__str__` of days 16 and 17, the prints in days 08, 17, 18 and 22): they have no effect on results.
- `getLeaves` of `05/map.py`: it reuses one list for every layer, so what it computes is unclear, and its asserted results do not follow from the code.
- `reachablePoints`, `updateFromExtremeRows` and `mapFromExtremeRowsAndColumns` of `21/main.cpp`: they index a table of rows with a column coordinate, so their intent is unclear.
- Day17Path.PathMap.Traverse: `step` and `traverse` of `17/path.py` are modelled, with the prints left out. Nothing is proved about the cost they find: neither that it is the least heat loss nor that it is the cost of some path. Their contracts state only that the costs to reach never rise and that the start ends at 0.
- `traverseVerticalBoundary` of `18/part2.py`: it prints, raises, and searches the sorted lines linearly, and its result is not proved to be the dug area. `sortVerticalBoundaryPoints`, which prepares its input, is modelled.
- Day14Tilt.Board.constructor: it requires at least one line, so the IndexError of `lines[0]` on no lines is not modelled. It ensures `Valid()` only when no line is longer than the first, and every roll requires `Valid()`. On a board with a longer later line the source's rolls raise IndexError at `columns[x]` (14/tilt.py:66-111). The model does not say what happens there.
- Day16Beams.BeamMap.CreateBeams: it requires every row as long as the first. On a ragged map the source raises IndexError when a beam reaches a cell missing from a short row. That error is not modelled.
- Day17Path.PathMap.constructor: it requires every row of the cost map as long as the first. What `step` and `traverse` do on ragged rows is not modelled.
- Day21Steps.DistanceMap: it requires every row as long as the first, and a start with non-negative coordinates. Ragged maps are not modelled. Python's wrap-around for a negative start index is not modelled either; `findStart` only ever gives a start on the map.
- Day21Steps.Reachable: it requires every row as long as the first and a start on the map. What the rounds do on ragged rows is not modelled.
- Day22Map.BuildMap: it requires every brick's end corner to be no lower than its start on any axis. Bricks written the other way round are not modelled. The `ValueError` of `max([])` on no bricks is modelled.
- Day22Map.BrickMap.constructor: it requires at least one brick; `Day22Map.BuildMap` models the `ValueError` on none. It also requires ordered corners. The map is `Valid()` only for straight bricks that do not overlap, and every later operation requires `Valid()`. What the source does with bent or overlapping bricks is not modelled.
- Python object identity and aliasing (`is`, parent/child reference cycles, shared tiles and objects): references become indices into sequences or arrays.
- Day09Sequences.PredictPrev: `getRecursiveDifferences` keeps the caller's list as its first row (09/seq.py:14), so `extrapolate` appends the prediction to the example sequence itself (09/seq.py:25). The backward pass at 09/seq.py:55 therefore runs on sequences one element longer. The model's functions leave their inputs unchanged, and its backward lemmas start from the original sequences. That the extra element does not change the backward prediction is not proved.
- Strings.SplitLines: it breaks lines at `\n` only, while Python's `splitlines` also breaks at `\r`, `\v`, `\f` and other separators. Inputs here hold only `\n`.
- Strings.ParseInt: it accepts blanks, a sign and ASCII decimal digits. The underscores and non-ASCII digits that Python's `int()` also accepts are not modelled. `Strings.ParseIntBase`, as `int(x, 16)` in 18/part2.py:45-46, likewise rejects the `0x`/`0X` prefix and the `_` separators Python accepts there.
- Strings.IsDigit, Strings.IsAlpha: Python's `isnumeric`, `isdigit` and `isalpha` are modelled on ASCII only.
- Sorting.SortBy: its contract states a permutation sorted by key. That equal keys keep their order, as Python's `sorted` guarantees, is not stated. Where keys are distinct, `Sorting.SortByUnique` shows the order is the only possible one.
- Day10Pipes.WalkLoop, Day10Pipes.PipeMap.CreateLoop: the walk round the loop takes a step budget (`fuel`) and fails with "step budget exhausted" when it runs out. The source's `while` loop has no bound and would run forever on a walk that never returns to the start.
- Day08Graph.WaypointGraph.SetDistances, Day08Waypoints.WaypointManager.SetDistances: the fixpoint takes a round budget (`fuel`). The source loops forever when some waypoint cannot reach a name ending in `Z`. `IncompleteFar` states that this is the only way the budget runs out.
- Day19Workflows.RunWorkflow, Day19Workflows.BuildNode: they take a bound `depth` on nested calls and fail with RecursionError past it. The bound stands for Python's recursion limit, whose value is not modelled. On cyclic workflows the source's recursion ends only at that limit.
- Day20Pulse.Run, Day20Pulse.CommandCenter.PressButton: the pulse stack is processed with a step budget (`fuel`), because a pulse cascade need not end in general.
- Day22Map.BrickMap.SupportGiven, Day22Map.BrickMap.SupportedBy: they return a set. The source returns `list(set(res))`, whose order depends on hashing. Only the members and their count are used.
- Day08Graph: indexing a C++ `std::vector` past its end is undefined behaviour. It is modelled as `Err`, and so are the shift by a negative amount and the read past the right operand in `Day21Bits`.
- Day01Spelled: every assert of `01/readLinesTwo.py` is proved, but `readLines` on the sample is stated line by line (`SampleTotal`) rather than through the file-reading driver.
- Day04Cards.ExampleTotal: the six sample cards are written as `Card` values. Their text lines are not parsed in the proof. `ReadCardRender` covers the parsing of any written card.
- Day03Map: the asserts about the large sample map and its total 4361 are not proved. A small map proves the same rules (`Example1Adjacent`).
- Day10Pipes, Day10Regions: the sample values (farthest distance 4, enclosed counts 4 and 10) are not proved. Evaluating the whole pipeline on the sample maps is too large for the prover.
- Day12Arrangements: the example total 21 is not proved. Only `ReadLineExample` and `SequenceExample` are.
- Day13Mirrors: the example values 405 and 400 are not proved. The small examples of `splitAt`, `isRowMirror` and the block mirrors are.
- Day14Tilt: the example load 136 and the board after one spin cycle are not proved. `RollSouthThenNorth` proves the round-trip assert.
- Day16Beams: the example count 46 is not proved. `ExampleEnergized` works on a smaller grid.
- Day18Dig: the example count 62 is not proved.
- Day19Workflows: the example's 11 workflows, 5 parts and total 19114 are not proved. `ExampleRule` proves the rule example.
- Day20Pulse: the example's 32000000 after 1000 presses is not proved.
- Day21Steps: the example's 16 cells after 6 steps is not proved.
- Day22Map: the example's 5 removable bricks is not proved. `ExampleMap` proves the two-brick map's 1.
- Day11Universe: the negative indices Python would accept in `isEmptyRow`/`isEmptyColumn` are not modelled: callers pass indices inside the grid.

## Findings

| source | as written | input that shows it | evidently intended | confidence | as-written member | corrected member |
|---|---|---|---|---|---|---|
| 21/main.cpp:55-57 | `byteIndex` is `y * w/8 + x/8`, which C++ reads as `(y * w) / 8 + x / 8`, while the constructor gives each row `w/8 + 1` bytes of its own | w = 9: cells (8, 0) and (0, 1) both map to byte 1, bit 0, so setting one sets the other | `y * (w/8 + 1) + x/8`: each cell its own bit, inside the allocated bytes | high, not executed | Day21Bits.AsWrittenCellsCollide | Day21Bits.ByteIndexSound, Day21Bits.LookupStoreOther, Day21Bits.StoreKeepsOthers, Day21Bits.Map.Set |
| 18/part2.py:15-17 | `end` is `start + direction * length`, and `direction` is already negative for a negative length | start (0, 0), length −2: `end` is (0, 2), not (0, −2) | `start + direction * abs(length)`, the far end of the line | high, not executed | Day18Polygon.EndAsWrittenOff | Day18Polygon.EndOnLine |
