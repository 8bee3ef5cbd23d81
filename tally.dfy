/**
 * The breed histogram's arithmetic: `Map.merge(key, 1, Integer::sum)` and
 * the sum of a histogram's counts.
 */
module Tally {

  /** `counts.merge(key, 1, Integer::sum)`: start a key at 1, or add 1 to it. */
  function Merged(counts: map<string, nat>, key: string): (r: map<string, nat>)
    ensures r.Keys == counts.Keys + {key}
    ensures r[key] == if key in counts then counts[key] + 1 else 1
    ensures forall k :: k in counts && k != key ==> r[k] == counts[k]
  {
    counts[key := if key in counts then counts[key] + 1 else 1]
  }

  /** The sum of all counts in a histogram. */
  ghost function Total(counts: map<string, nat>): nat
    decreases |counts|
  {
    if |counts| == 0 then 0
    else
      var k := AnyKey(counts);
      assert (counts - {k}).Keys == counts.Keys - {k};
      counts[k] + Total(counts - {k})
  }

  /** Some key of a non-empty histogram; which one does not matter (`TotalWithout`). */
  ghost function AnyKey(counts: map<string, nat>): (k: string)
    requires |counts| > 0
    ensures k in counts
  {
    var k :| k in counts; k
  }

  /** `Total` does not depend on which key it takes first. */
  lemma {:induction false} TotalWithout(counts: map<string, nat>, key: string)
    requires key in counts
    ensures Total(counts) == counts[key] + Total(counts - {key})
    decreases |counts|
  {
    var k := AnyKey(counts);
    if k != key {
      var rest := counts - {k};
      var others := counts - {key};
      assert key in rest && rest[key] == counts[key];
      assert k in others && others[k] == counts[k];
      assert rest.Keys == counts.Keys - {k};
      assert others.Keys == counts.Keys - {key};
      TotalWithout(rest, key);
      TotalWithout(others, k);
      assert rest - {key} == others - {k};
    }
  }
}
