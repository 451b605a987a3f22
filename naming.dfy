/** Fixed names of the generator and the deterministic file names it derives from identities. */
module Naming {
  import opened Wrappers

  /** Sub-directory of a workspace that holds the staged request components. */
  const DIR_IN := "inputs"
  /** Sub-directory of a workspace that holds the rendered artifacts. */
  const DIR_OUT := "csar"
  /** The run log of a workspace. */
  const FILE_LOG := "generate.log"
  /** The assembled archive of a workspace. */
  const FILE_OUT := "dma_adt.csar"

  /** Path joining, for the relative names the generator builds (none of them starts with a slash). */
  function Join(dir: string, file: string): string {
    dir + "/" + file
  }

  // ---------------------------------------------------------------------------
  // Artifact names
  // ---------------------------------------------------------------------------

  /** The artifact file name of a rendered component of the given kind and id. */
  function FName(kind: string, id: string): string {
    kind + "." + id + ".yaml"
  }

  /** Recovers the id from an artifact file name of the given kind, if it is one. */
  function ParseFName(kind: string, name: string): (r: Option<string>)
    ensures r.Some? ==> |r.value| == |name| - |kind| - 6
  {
    if |name| >= |kind| + 6 && name[..|kind|] == kind && name[|kind|] == '.'
       && name[|name| - 5..] == ".yaml"
    then Some(name[|kind| + 1..|name| - 5])
    else None
  }

  /** Parsing an artifact name gives back the id it was built from. */
  lemma FNameRoundTrip(kind: string, id: string)
    ensures ParseFName(kind, FName(kind, id)) == Some(id)
  {
    var n := FName(kind, id);
    assert n[..|kind|] == kind;
    assert n[|kind| + 1..|n| - 5] == id;
    assert n[|n| - 5..] == ".yaml";
  }

  /** Every name the parser accepts is exactly the artifact name of the id it returns. */
  lemma ParseFNameSound(kind: string, name: string)
    requires ParseFName(kind, name).Some?
    ensures FName(kind, ParseFName(kind, name).value) == name
  {
    var id := ParseFName(kind, name).value;
    var n := FName(kind, id);
    assert |n| == |name|;
    forall i | 0 <= i < |n| ensures n[i] == name[i] {
      if i < |kind| {
        assert name[..|kind|][i] == name[i];
      } else if i >= |name| - 5 {
        assert name[|name| - 5..][i - (|name| - 5)] == name[i];
      }
    }
  }

  /** Two artifacts of one kind share a file name only if they share an id. */
  lemma FNameInjective(kind: string, a: string, b: string)
    requires FName(kind, a) == FName(kind, b)
    ensures a == b
  {
    FNameRoundTrip(kind, a);
    FNameRoundTrip(kind, b);
  }

  /** Artifacts of the three kinds the generator renders never share a file name. */
  lemma ArtifactKindsDisjoint(a: string, b: string)
    ensures FName("deployment", a) != FName("algorithm", b)
    ensures FName("deployment", a) != FName("microservice", b)
    ensures FName("algorithm", a) != FName("microservice", b)
  {
    assert FName("deployment", a)[0] == 'd';
    assert FName("algorithm", a)[0] == 'a';
    assert FName("algorithm", b)[0] == 'a';
    assert FName("microservice", b)[0] == 'm';
  }

  // ---------------------------------------------------------------------------
  // Decimal rendering of a list position (Python's str on a non-negative int)
  // ---------------------------------------------------------------------------

  predicate IsDigit(c: char) {
    '0' <= c <= '9'
  }

  predicate AllDigits(s: string) {
    forall i :: 0 <= i < |s| ==> IsDigit(s[i])
  }

  function DigitChar(d: nat): (c: char)
    requires d < 10
    ensures IsDigit(c)
  {
    (48 + d) as char
  }

  function DigitValue(c: char): (d: nat)
    requires IsDigit(c)
    ensures d < 10
  {
    c as int - 48
  }

  /** Decimal digits of n, most significant first, without leading zeros. */
  function NatToString(n: nat): (s: string)
    ensures |s| > 0 && AllDigits(s)
    ensures |s| > 1 ==> s[0] != '0'
    decreases n
  {
    if n < 10 then [DigitChar(n)] else NatToString(n / 10) + [DigitChar(n % 10)]
  }

  /** The value of a string of decimal digits. */
  function ParseNat(s: string): nat
    requires AllDigits(s)
    decreases |s|
  {
    if s == [] then 0 else ParseNat(s[..|s| - 1]) * 10 + DigitValue(s[|s| - 1])
  }

  lemma {:induction false} ParseNatToString(n: nat)
    ensures ParseNat(NatToString(n)) == n
    decreases n
  {
    var s := NatToString(n);
    if n >= 10 {
      ParseNatToString(n / 10);
      assert s[..|s| - 1] == NatToString(n / 10);
    }
  }

  /** Two positions are written with the same decimal string only if they are equal. */
  lemma NatToStringInjective(i: nat, j: nat)
    requires NatToString(i) == NatToString(j)
    ensures i == j
  {
    ParseNatToString(i);
    ParseNatToString(j);
  }

  // ---------------------------------------------------------------------------
  // Staged input names
  // ---------------------------------------------------------------------------

  /** `inputs/{component}_{id}.json`, for DMA, MA, MODEL and ALGORITHM. */
  function StagedName(component: string, id: string): string {
    Join(DIR_IN, component + "_" + id + ".json")
  }

  /** `inputs/{component}_{index}_{id}.json`, for each element of MICROSERVICES and DATA. */
  function IndexedStagedName(component: string, index: nat, id: string): string {
    Join(DIR_IN, component + "_" + NatToString(index) + "_" + id + ".json")
  }

  /** The staged snapshot of the whole request. */
  const GENERATE_NAME := Join(DIR_IN, "GENERATE.json")

  predicate NoUnderscore(s: string) {
    forall i :: 0 <= i < |s| ==> s[i] != '_'
  }

  /** The part of s before its first underscore. */
  function BeforeUnderscore(s: string): string
    decreases |s|
  {
    if s == [] || s[0] == '_' then [] else [s[0]] + BeforeUnderscore(s[1..])
  }

  lemma {:induction false} BeforeUnderscoreOfJoin(x: string, r: string)
    requires NoUnderscore(x)
    ensures BeforeUnderscore(x + "_" + r) == x
    decreases |x|
  {
    if x != [] {
      assert (x + "_" + r)[1..] == x[1..] + "_" + r;
      BeforeUnderscoreOfJoin(x[1..], r);
    }
  }

  /** A prefix free of the separator is determined by where the first separator stands. */
  lemma SplitAtSeparator(x: string, y: string, r1: string, r2: string)
    requires NoUnderscore(x) && NoUnderscore(y)
    requires x + "_" + r1 == y + "_" + r2
    ensures x == y
  {
    BeforeUnderscoreOfJoin(x, r1);
    BeforeUnderscoreOfJoin(y, r2);
  }

  /** Elements at different positions of one list are staged into different files. */
  lemma IndexedStagedNamesDistinct(component: string, i: nat, j: nat, a: string, b: string)
    requires i != j
    ensures IndexedStagedName(component, i, a) != IndexedStagedName(component, j, b)
  {
    var p := DIR_IN + "/" + component + "_";
    var u := NatToString(i) + "_" + (a + ".json");
    var v := NatToString(j) + "_" + (b + ".json");
    assert IndexedStagedName(component, i, a) == p + u;
    assert IndexedStagedName(component, j, b) == p + v;
    if p + u == p + v {
      assert u == (p + u)[|p|..];
      assert v == (p + v)[|p|..];
      SplitAtSeparator(NatToString(i), NatToString(j), a + ".json", b + ".json");
      NatToStringInjective(i, j);
    }
  }
}
