/** Working on a copy of part of a map and writing the copy back. */
module Overlay {

  function Restrict<V>(m: map<string, V>, keys: set<string>): (r: map<string, V>)
  {
    map a | a in m && a in keys :: m[a]
  }

  /** `part` is the copy, within `keys`, of what `whole` became, and `m` is the map below it. */
  ghost predicate Overlays<V>(m: map<string, V>, part: map<string, V>, whole: map<string, V>, keys: set<string>) {
    && whole == m + part
    && (forall a :: a in keys && a in whole ==> a in part)
  }

  lemma OverlayStart<V>(m: map<string, V>, keys: set<string>)
    ensures Overlays(m, Restrict(m, keys), m, keys)
  {
    assert m + Restrict(m, keys) == m;
  }

  lemma OverlayPut<V>(m: map<string, V>, part: map<string, V>, whole: map<string, V>, keys: set<string>, a: string,
      v: V)
    requires Overlays(m, part, whole, keys)
    ensures Overlays(m, part[a := v], whole[a := v], keys)
  {
  }
}
