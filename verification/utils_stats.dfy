/**
  The formatting and string helpers of utils_stats.js: the Levenshtein
  distance used to rank ship names, the case-insensitive comparator used to
  sort team reports, and the text block written for one player.
 */
module UtilsStats {
  import JsText
  import Sorting

  // ---------------------------------------------------------------------
  // Levenshtein distance
  // ---------------------------------------------------------------------

  function Min3(x: nat, y: nat, z: nat): nat
  {
    if x <= y && x <= z then x else if y <= z then y else z
  }

  /**
    The distance between `actual` (rows of the table) and `input` (columns),
    defined by the recurrence the table is filled with: a matching last
    character costs nothing, otherwise one substitution, insertion or deletion.
   */
  function Lev(actual: string, input: string): nat
    decreases |actual| + |input|
  {
    if |actual| == 0 then |input|
    else if |input| == 0 then |actual|
    else
      var a, b := actual[..|actual| - 1], input[..|input| - 1];
      if actual[|actual| - 1] == input[|input| - 1] then Lev(a, b)
      else 1 + Min3(Lev(a, b), Lev(actual, b), Lev(a, input))
  }

  /**
    `levenshteinDistance(input, actual)`: the early returns for an empty
    string and for identical strings, then the (|actual|+1) x (|input|+1)
    table filled row by row.
   */
  method LevenshteinDistance(input: string, actual: string) returns (d: nat)
    ensures d == Lev(actual, input)
    ensures |input| == 0 ==> d == |actual|
    ensures |actual| == 0 ==> d == |input|
    ensures input == actual ==> d == 0
  {
    if |input| == 0 {
      return |actual|;
    }
    if |actual| == 0 {
      return |input|;
    }
    if input == actual {
      LevIdentical(input);
      return 0;
    }

    var matrix := new nat[|actual| + 1, |input| + 1];

    // the first column of each row
    var actualIndex := 0;
    while actualIndex <= |actual|
      invariant 0 <= actualIndex <= |actual| + 1
      invariant forall i :: 0 <= i < actualIndex ==> matrix[i, 0] == i
    {
      matrix[actualIndex, 0] := actualIndex;
      actualIndex := actualIndex + 1;
    }

    // each column of the first row
    var inputIndex := 0;
    while inputIndex <= |input|
      invariant 0 <= inputIndex <= |input| + 1
      invariant forall i :: 0 <= i <= |actual| ==> matrix[i, 0] == i
      invariant forall j :: 0 <= j < inputIndex ==> matrix[0, j] == j
    {
      matrix[0, inputIndex] := inputIndex;
      inputIndex := inputIndex + 1;
    }

    // the rest of the table
    actualIndex := 1;
    while actualIndex <= |actual|
      invariant 1 <= actualIndex <= |actual| + 1
      invariant RowsFilled(matrix, actual, input, actualIndex)
      invariant forall i :: actualIndex <= i <= |actual| ==> matrix[i, 0] == i
    {
      FillRow(matrix, actual, input, actualIndex);
      actualIndex := actualIndex + 1;
    }

    assert actual[..|actual|] == actual && input[..|input|] == input;
    d := matrix[|actual|, |input|];
  }

  /** Rows `0 .. rows-1` of the table hold the distances between prefixes. */
  ghost predicate RowsFilled(matrix: array2<nat>, actual: string, input: string, rows: nat)
    reads matrix
    requires matrix.Length0 == |actual| + 1 && matrix.Length1 == |input| + 1
    requires rows <= |actual| + 1
  {
    forall i, j :: 0 <= i < rows && 0 <= j <= |input| ==>
      matrix[i, j] == Lev(actual[..i], input[..j])
  }

  /** The inner loop: fills row `actualIndex` from the row above it. */
  method FillRow(matrix: array2<nat>, actual: string, input: string, actualIndex: nat)
    requires matrix.Length0 == |actual| + 1 && matrix.Length1 == |input| + 1
    requires 1 <= actualIndex <= |actual|
    requires RowsFilled(matrix, actual, input, actualIndex)
    requires matrix[actualIndex, 0] == actualIndex
    modifies matrix
    ensures RowsFilled(matrix, actual, input, actualIndex + 1)
    ensures forall i :: 0 <= i < matrix.Length0 ==> matrix[i, 0] == old(matrix[i, 0])
  {
    assert actual[..actualIndex][..0] == [] && input[..0] == [];
    var inputIndex := 1;
    while inputIndex <= |input|
      invariant 1 <= inputIndex <= |input| + 1
      invariant RowsFilled(matrix, actual, input, actualIndex)
      invariant forall i :: 0 <= i < matrix.Length0 ==> matrix[i, 0] == old(matrix[i, 0])
      invariant forall j :: 0 <= j < inputIndex ==>
                  matrix[actualIndex, j] == Lev(actual[..actualIndex], input[..j])
    {
      FillCell(matrix, actual, input, actualIndex, inputIndex);
      inputIndex := inputIndex + 1;
    }
  }

  /** One cell of the inner loop, computed from its left, upper and upper-left neighbours. */
  method FillCell(matrix: array2<nat>, actual: string, input: string, actualIndex: nat, inputIndex: nat)
    requires matrix.Length0 == |actual| + 1 && matrix.Length1 == |input| + 1
    requires 1 <= actualIndex <= |actual| && 1 <= inputIndex <= |input|
    requires matrix[actualIndex - 1, inputIndex - 1] == Lev(actual[..actualIndex - 1], input[..inputIndex - 1])
    requires matrix[actualIndex, inputIndex - 1] == Lev(actual[..actualIndex], input[..inputIndex - 1])
    requires matrix[actualIndex - 1, inputIndex] == Lev(actual[..actualIndex - 1], input[..inputIndex])
    modifies matrix
    ensures matrix[actualIndex, inputIndex] == Lev(actual[..actualIndex], input[..inputIndex])
    ensures forall i, j :: 0 <= i < matrix.Length0 && 0 <= j < matrix.Length1 ==>
              (i != actualIndex || j != inputIndex ==> matrix[i, j] == old(matrix[i, j]))
  {
    var diagonal, left, up := matrix[actualIndex - 1, inputIndex - 1],
                              matrix[actualIndex, inputIndex - 1], matrix[actualIndex - 1, inputIndex];
    var cell: nat;
    if actual[actualIndex - 1] == input[inputIndex - 1] {
      cell := diagonal;
    } else {
      cell := Min(diagonal + 1, Min(left + 1, up + 1));
    }
    LevStep(actual, input, actualIndex, inputIndex);
    matrix[actualIndex, inputIndex] := cell;
  }

  function Min(x: nat, y: nat): nat
  {
    if x < y then x else y
  }

  /** One cell of the table: `Lev` on the prefixes, unfolded once. */
  lemma LevStep(actual: string, input: string, i: nat, j: nat)
    requires 1 <= i <= |actual| && 1 <= j <= |input|
    ensures actual[i - 1] == input[j - 1] ==>
              Lev(actual[..i], input[..j]) == Lev(actual[..i - 1], input[..j - 1])
    ensures actual[i - 1] != input[j - 1] ==>
              Lev(actual[..i], input[..j]) ==
              1 + Min3(Lev(actual[..i - 1], input[..j - 1]), Lev(actual[..i], input[..j - 1]),
                       Lev(actual[..i - 1], input[..j]))
  {
    assert actual[..i][..i - 1] == actual[..i - 1];
    assert input[..j][..j - 1] == input[..j - 1];
  }

  /** Identical strings are at distance 0. */
  lemma {:induction false} LevIdentical(s: string)
    ensures Lev(s, s) == 0
  {
    if |s| > 0 {
      LevIdentical(s[..|s| - 1]);
    }
  }

  /** The distance is 0 exactly when the strings are equal. */
  lemma {:induction false} LevZeroIff(actual: string, input: string)
    ensures Lev(actual, input) == 0 <==> actual == input
  {
    if actual == input {
      LevIdentical(actual);
    } else if |actual| > 0 && |input| > 0 {
      var a, b := actual[..|actual| - 1], input[..|input| - 1];
      if actual[|actual| - 1] == input[|input| - 1] {
        LevZeroIff(a, b);
      }
    }
  }

  /** The distance lies between the difference and the larger of the two lengths. */
  lemma {:induction false} LevBounds(actual: string, input: string)
    ensures Lev(actual, input) <= if |actual| < |input| then |input| else |actual|
    ensures |actual| - |input| <= Lev(actual, input)
    ensures |input| - |actual| <= Lev(actual, input)
    decreases |actual| + |input|
  {
    if |actual| > 0 && |input| > 0 {
      var a, b := actual[..|actual| - 1], input[..|input| - 1];
      LevBounds(a, b);
      LevBounds(actual, b);
      LevBounds(a, input);
    }
  }

  /** The distance does not depend on which string fills the rows. */
  lemma {:induction false} LevSymmetric(actual: string, input: string)
    ensures Lev(actual, input) == Lev(input, actual)
    decreases |actual| + |input|
  {
    if |actual| > 0 && |input| > 0 {
      var a, b := actual[..|actual| - 1], input[..|input| - 1];
      LevSymmetric(a, b);
      LevSymmetric(actual, b);
      LevSymmetric(a, input);
    }
  }

  // ---------------------------------------------------------------------
  // caseInsensitiveCompare
  // ---------------------------------------------------------------------

  /** Three-way comparison of the lower-cased strings. */
  function CaseInsensitiveCompare(string1: string, string2: string): (r: int)
    ensures r == -1 || r == 0 || r == 1
    ensures r == 0 <==> JsText.Lower(string1) == JsText.Lower(string2)
    ensures r == -1 <==> JsText.Less(JsText.Lower(string1), JsText.Lower(string2))
    ensures r == 1 <==> JsText.Less(JsText.Lower(string2), JsText.Lower(string1))
  {
    var s1lower, s2lower := JsText.Lower(string1), JsText.Lower(string2);
    JsText.LessTrichotomy(s1lower, s2lower);
    JsText.LessIrreflexive(s1lower);
    if JsText.Less(s1lower, s2lower) then
      JsText.LessAsymmetric(s1lower, s2lower);
      -1
    else if JsText.Less(s2lower, s1lower) then 1
    else 0
  }

  /** Swapping the arguments negates the answer. */
  lemma CompareAntisymmetric(string1: string, string2: string)
    ensures CaseInsensitiveCompare(string1, string2) == -CaseInsensitiveCompare(string2, string1)
  {
    var r1, r2 := CaseInsensitiveCompare(string1, string2), CaseInsensitiveCompare(string2, string1);
    if r1 == -1 {
      JsText.LessAsymmetric(JsText.Lower(string1), JsText.Lower(string2));
    } else if r1 == 1 {
      JsText.LessAsymmetric(JsText.Lower(string2), JsText.Lower(string1));
    }
  }

  /** "Not after" is transitive, so the comparator is a valid sort order. */
  lemma CompareTransitive(s1: string, s2: string, s3: string)
    requires CaseInsensitiveCompare(s1, s2) <= 0 && CaseInsensitiveCompare(s2, s3) <= 0
    ensures CaseInsensitiveCompare(s1, s3) <= 0
  {
    var l1, l2, l3 := JsText.Lower(s1), JsText.Lower(s2), JsText.Lower(s3);
    JsText.LessOrEqualTransitive(l1, l2, l3);
  }

  /**
    Sorting by the lower-cased text (what `Sorting.SortByKey` does with key
    `Lower`) is sorting with `caseInsensitiveCompare`.
   */
  lemma SortedByLowerIsComparatorOrder(s: seq<string>)
    ensures Sorting.SortedBy(s, JsText.Lower) <==>
            forall i, j :: 0 <= i < j < |s| ==> CaseInsensitiveCompare(s[i], s[j]) <= 0
  {
  }

  // ---------------------------------------------------------------------
  // formatStats
  // ---------------------------------------------------------------------

  /** The kill/death ratio: the string `'inf'` when the player never died, else a number. */
  datatype Kd = KdInf | KdRatio(frags: nat, deaths: int)

  /** A player's PvP record on one ship, as `stats` builds it (raw counts; the rates are floats). */
  datatype StatRecord = StatRecord(
    totalBattles: nat, wins: nat, damageDealt: nat, xp: nat,
    survivedBattles: nat, frags: nat, planesKilled: nat, kd: Kd)

  /** What `stats` resolves with: one of its sentinel strings, or a record. */
  datatype StatsValue = Sentinel(text: string) | Record(record: StatRecord)

  /** The `toFixed` renderings of a record's floating-point fields. */
  datatype Numbers = Numbers(
    winRate: string, avgXp: string, avgDmg: string, survivalRate: string,
    avgPlaneKills: string, avgKills: string, kd: string)

  predicate EndsWith(s: string, suffix: string)
  {
    |suffix| <= |s| && s[|s| - |suffix|..] == suffix
  }

  /** The first line of every block: bold player name, italic ship name. */
  function Header(playerName: string, shipName: string): string
  {
    "**" + playerName + "**: *" + shipName + "*\n"
  }

  function KdLine(kd: Kd, numbers: Numbers): string
  {
    match kd
    case KdInf => "KD: " + "inf" + "\n"
    case KdRatio(_, _) => "KD: " + numbers.kd + "\n"
  }

  /**
    `formatStats(stats, playerName, shipName)`: a sentinel string is appended
    verbatim under the header; a record becomes one line per statistic, with
    a string kd written as it is.
   */
  function FormatStats(stats: StatsValue, playerName: string, shipName: string, numbers: Numbers): (r: string)
    ensures |Header(playerName, shipName)| <= |r|
    ensures r[..|Header(playerName, shipName)|] == Header(playerName, shipName)
    ensures stats.Sentinel? ==> r[|Header(playerName, shipName)|..] == stats.text
    ensures stats.Record? && stats.record.kd.KdInf? ==> EndsWith(r, "KD: inf\n")
    ensures stats.Record? && stats.record.kd.KdRatio? ==> EndsWith(r, "KD: " + numbers.kd + "\n")
  {
    match stats
    case Sentinel(text) => Header(playerName, shipName) + text
    case Record(rec) =>
      Header(playerName, shipName) +
      "Battles: " + JsText.Decimal(rec.totalBattles) + "\n" +
      "Win Rate: " + numbers.winRate + "%\n" +
      "Average XP: " + numbers.avgXp + "\n" +
      "Average Damage: " + numbers.avgDmg + "\n" +
      "Survival Rate: " + numbers.survivalRate + "%\n" +
      "Average Plane Kills: " + numbers.avgPlaneKills + "\n" +
      "Average Kills: " + numbers.avgKills + "\n" +
      KdLine(rec.kd, numbers)
  }
}
