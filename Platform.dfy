/** Platform detection of the generic driver library: the board is
    recognised from the device tree's `compatible` string by a chain of
    substring tests, the first test that succeeds deciding. */
module Platform {

  /** `Platform`. */
  datatype Platform = AllwinnerA527 | AllwinnerH616 | AllwinnerA64 | RockchipRK3588 | Unknown

  /** `str::contains`: `needle` occurs in `s` at some position. */
  predicate Contains(s: string, needle: string)
  {
    exists i :: 0 <= i <= |s| - |needle| && OccursAt(s, needle, i)
  }

  /** `needle` occurs in `s` starting at position `i`. */
  predicate OccursAt(s: string, needle: string, i: nat)
    requires i + |needle| <= |s|
  {
    s[i..i + |needle|] == needle
  }

  /** A needle occurs where it is found. */
  lemma FoundAt(s: string, needle: string, i: nat)
    requires i + |needle| <= |s| && s[i..i + |needle|] == needle
    ensures Contains(s, needle)
  {
    assert OccursAt(s, needle, i);
  }

  /** A non-empty needle whose first character is at no position where it
      could start does not occur. */
  lemma NotFound(s: string, needle: string)
    requires |needle| > 0
    requires forall i :: 0 <= i <= |s| - |needle| ==> s[i] != needle[0]
    ensures !Contains(s, needle)
  {
    forall i | 0 <= i <= |s| - |needle|
      ensures !OccursAt(s, needle, i)
    {
      assert s[i..i + |needle|][0] == s[i];
    }
  }

  /** `Platform::detect_from_compatible`: an A527 board is recognised by
      either of its two names, and a string naming none of the five is
      Unknown. */
  function DetectFromCompatible(compatible: string): (p: Platform)
    ensures p == AllwinnerA527 <==> Contains(compatible, "sun55i-a527") || Contains(compatible, "cubie-a5e")
    ensures p == Unknown <==>
      !Contains(compatible, "sun55i-a527") && !Contains(compatible, "cubie-a5e")
      && !Contains(compatible, "sun50i-h616") && !Contains(compatible, "sun50i-a64")
      && !Contains(compatible, "rk3588")
  {
    if Contains(compatible, "sun55i-a527") || Contains(compatible, "cubie-a5e") then AllwinnerA527
    else if Contains(compatible, "sun50i-h616") then AllwinnerH616
    else if Contains(compatible, "sun50i-a64") then AllwinnerA64
    else if Contains(compatible, "rk3588") then RockchipRK3588
    else Unknown
  }

  /** The substrings tried, highest priority first, with the platform each
      stands for. */
  const RULES: seq<(string, Platform)> := [
    ("sun55i-a527", AllwinnerA527),
    ("cubie-a5e", AllwinnerA527),
    ("sun50i-h616", AllwinnerH616),
    ("sun50i-a64", AllwinnerA64),
    ("rk3588", RockchipRK3588)
  ]

  /** The platform of the first rule whose substring occurs, or Unknown. */
  function FirstMatch(rules: seq<(string, Platform)>, compatible: string): Platform
  {
    if rules == [] then Unknown
    else if Contains(compatible, rules[0].0) then rules[0].1
    else FirstMatch(rules[1..], compatible)
  }

  /** Detection is the first-match table lookup over `RULES`. */
  lemma DetectIsFirstMatch(compatible: string)
    ensures DetectFromCompatible(compatible) == FirstMatch(RULES, compatible)
  {
    var r1, r2, r3, r4 := RULES[1..], RULES[2..], RULES[3..], RULES[4..];
    assert r1[1..] == r2 && r2[1..] == r3 && r3[1..] == r4 && r4[1..] == [];
    assert FirstMatch(r4, compatible) == if Contains(compatible, "rk3588") then RockchipRK3588 else Unknown;
    assert FirstMatch(r3, compatible)
      == if Contains(compatible, "sun50i-a64") then AllwinnerA64 else FirstMatch(r4, compatible);
    assert FirstMatch(r2, compatible)
      == if Contains(compatible, "sun50i-h616") then AllwinnerH616 else FirstMatch(r3, compatible);
  }

  /** The result is Unknown exactly when no rule's substring occurs, and
      otherwise it is the platform of some rule that does occur. */
  lemma {:induction false} FirstMatchSound(rules: seq<(string, Platform)>, compatible: string)
    requires forall j :: 0 <= j < |rules| ==> rules[j].1 != Unknown
    ensures FirstMatch(rules, compatible) == Unknown <==>
      forall j :: 0 <= j < |rules| ==> !Contains(compatible, rules[j].0)
    ensures FirstMatch(rules, compatible) != Unknown ==>
      exists j :: 0 <= j < |rules| && Contains(compatible, rules[j].0) && rules[j].1 == FirstMatch(rules, compatible)
  {
    if rules != [] && !Contains(compatible, rules[0].0) {
      FirstMatchSound(rules[1..], compatible);
      assert forall j :: 1 <= j < |rules| ==> rules[j] == rules[1..][j - 1];
      if FirstMatch(rules, compatible) != Unknown {
        var j :| 0 <= j < |rules[1..]| && Contains(compatible, rules[1..][j].0) && rules[1..][j].1 == FirstMatch(rules, compatible);
        assert rules[j + 1] == rules[1..][j];
      }
    }
  }

  /** An earlier rule that occurs always beats a later one. */
  lemma {:induction false} EarlierRuleWins(rules: seq<(string, Platform)>, compatible: string, j: nat)
    requires j < |rules| && Contains(compatible, rules[j].0)
    requires forall k :: 0 <= k < j ==> !Contains(compatible, rules[k].0)
    ensures FirstMatch(rules, compatible) == rules[j].1
  {
    if j > 0 {
      EarlierRuleWins(rules[1..], compatible, j - 1);
    }
  }

  /** The board strings of the A527 boards are recognised. */
  lemma DetectA527Examples()
    ensures DetectFromCompatible("allwinner,sun55i-a527") == AllwinnerA527
    ensures DetectFromCompatible("radxa,cubie-a5e") == AllwinnerA527
  {
    var a, b := "allwinner,sun55i-a527", "radxa,cubie-a5e";
    assert forall k :: 0 <= k < 11 ==> a[10 + k] == "sun55i-a527"[k];
    assert a[10..21] == "sun55i-a527";
    FoundAt(a, "sun55i-a527", 10);
    assert forall k :: 0 <= k < 9 ==> b[6 + k] == "cubie-a5e"[k];
    assert b[6..15] == "cubie-a5e";
    FoundAt(b, "cubie-a5e", 6);
  }

  /** A string naming no known board is Unknown. */
  lemma DetectUnknownExample()
    ensures DetectFromCompatible("unknown-soc") == Unknown
  {
    var s := "unknown-soc";
    NotFound(s, "sun55i-a527");
    NotFound(s, "cubie-a5e");
    NotFound(s, "sun50i-h616");
    NotFound(s, "sun50i-a64");
    NotFound(s, "rk3588");
  }
}
