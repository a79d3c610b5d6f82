/** The pure helpers of the state layer: the level catalog lookup, the
    full-chain unlock rule, and the star grading of a quiz.
    The level catalog is the ordered list of level ids; its order is the
    unlock chain. */
module StateUtils {

  /** `starsByLevel[id] ?? 0`: a missing entry reads as 0. */
  function StarsOf(stars: map<string, int>, id: string): int
  {
    if id in stars then stars[id] else 0
  }

  /** `catalog.findIndex(l => l.id === id)`: the first position holding `id`,
      or -1 when no level has that id. */
  function FindIndex(catalog: seq<string>, id: string): (idx: int)
    ensures -1 <= idx < |catalog|
    ensures idx == -1 <==> id !in catalog
    ensures idx >= 0 ==> catalog[idx] == id && id !in catalog[..idx]
  {
    if |catalog| == 0 then -1
    else if catalog[0] == id then 0
    else
      var rest := FindIndex(catalog[1..], id);
      assert catalog[1..][..Max0(rest)] == catalog[1..Max0(rest) + 1];
      if rest == -1 then -1 else rest + 1
  }

  function Max0(x: int): nat { if x < 0 then 0 else x }

  /** Reference statement of the unlock chain: the first level, and any id
      the catalog does not hold, are open; any other level is open when every
      earlier level has a non-zero entry. */
  predicate ChainComplete(catalog: seq<string>, stars: map<string, int>, id: string)
  {
    var idx := FindIndex(catalog, id);
    idx <= 0 || forall i :: 0 <= i < idx ==> StarsOf(stars, catalog[i]) != 0
  }

  /** `isLevelUnlocked` of the state utilities: the loop over every earlier
      level, stopping at the first one whose entry is 0. */
  method IsLevelUnlocked(catalog: seq<string>, stars: map<string, int>, id: string) returns (unlocked: bool)
    ensures FindIndex(catalog, id) <= 0 ==> unlocked
    ensures unlocked <==> ChainComplete(catalog, stars, id)
  {
    var idx := FindIndex(catalog, id);
    if idx <= 0 {
      return true;
    }
    var i := 0;
    while i < idx
      invariant 0 <= i <= idx
      invariant forall k :: 0 <= k < i ==> StarsOf(stars, catalog[k]) != 0
    {
      if StarsOf(stars, catalog[i]) == 0 {
        return false;
      }
      i := i + 1;
    }
    return true;
  }

  /** Raising star counts never locks a level, as long as no entry is raised
      from a non-zero value to zero (entries that only grow from a
      non-negative start cannot be). */
  lemma ChainCompleteMonotone(catalog: seq<string>, s: map<string, int>, t: map<string, int>, id: string)
    requires forall x :: StarsOf(s, x) >= 0 && StarsOf(t, x) >= StarsOf(s, x)
    ensures ChainComplete(catalog, s, id) ==> ChainComplete(catalog, t, id)
  {
  }

  /** If the level at position k is open, so is the level at position k-1. */
  lemma ChainCompletePrefix(catalog: seq<string>, stars: map<string, int>, k: nat)
    requires 0 < k < |catalog|
    requires forall i, j :: 0 <= i < j < |catalog| ==> catalog[i] != catalog[j]
    ensures ChainComplete(catalog, stars, catalog[k]) ==> ChainComplete(catalog, stars, catalog[k - 1])
  {
    DistinctIndex(catalog, k);
    DistinctIndex(catalog, k - 1);
  }

  /** In a catalog without repeated ids, the id at position k is found at k. */
  lemma DistinctIndex(catalog: seq<string>, k: nat)
    requires k < |catalog|
    requires forall i, j :: 0 <= i < j < |catalog| ==> catalog[i] != catalog[j]
    ensures FindIndex(catalog, catalog[k]) == k
  {
    FindIndexAtMost(catalog, k);
  }

  /** The id at position k is found at k or earlier. */
  lemma FindIndexAtMost(catalog: seq<string>, k: nat)
    requires k < |catalog|
    ensures 0 <= FindIndex(catalog, catalog[k]) <= k
  {
    if k > 0 && catalog[0] != catalog[k] {
      assert catalog[k] == catalog[1..][k - 1];
      FindIndexAtMost(catalog[1..], k - 1);
    }
  }

  /** `calculateStars(correct, total)`: 0 for an empty quiz; otherwise 3 from
      90% correct, 2 from 60%, else 1. The ratio thresholds are compared
      exactly (10c >= 9t stands for c/t >= 0.9). */
  function CalculateStars(correct: nat, total: nat): (stars: int)
    ensures 0 <= stars <= 3
    ensures total == 0 ==> stars == 0
    ensures total > 0 ==> (stars == 3 <==> 10 * correct >= 9 * total)
    ensures total > 0 ==> (stars == 2 <==> 6 * total <= 10 * correct < 9 * total)
    ensures total > 0 ==> (stars == 1 <==> 10 * correct < 6 * total)
  {
    if total == 0 then 0
    else if 10 * correct >= 9 * total then 3
    else if 10 * correct >= 6 * total then 2
    else 1
  }

  /** A non-empty quiz never earns zero stars from this grading. */
  lemma CalculateStarsNeverZero(correct: nat, total: nat)
    requires total > 0
    ensures CalculateStars(correct, total) >= 1
  {
  }

  /** More correct answers never earn fewer stars. */
  lemma CalculateStarsMonotone(c1: nat, c2: nat, total: nat)
    requires c1 <= c2
    ensures CalculateStars(c1, total) <= CalculateStars(c2, total)
  {
  }
}
