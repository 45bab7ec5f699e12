/**
 * The `extend(base, custom)` helper: copies every own enumerable property of
 * `custom` onto `base`. Properties `custom` only inherits are enumerated by the
 * `for ... in` loop but skipped by its `hasOwnProperty` test.
 */
module Merge {

  /**
   * `base` after `extend(base, custom)`, where `own` holds the own properties of
   * `custom` and `inherited` the enumerable properties it inherits.
   */
  method Extend<K, V>(base: map<K, V>, own: map<K, V>, inherited: map<K, V>) returns (r: map<K, V>)
    ensures r.Keys == base.Keys + own.Keys
    ensures forall k :: k in own ==> r[k] == own[k]
    ensures forall k :: k in base && k !in own ==> r[k] == base[k]
  {
    r := base;
    var pending := own.Keys + inherited.Keys;
    while pending != {}
      invariant r.Keys == base.Keys + (own.Keys - pending)
      invariant forall k :: k in own && k !in pending ==> r[k] == own[k]
      invariant forall k :: k in r && (k !in own || k in pending) ==> k in base && r[k] == base[k]
      decreases pending
    {
      var k :| k in pending;
      if k in own {
        r := r[k := own[k]];
      }
      pending := pending - {k};
    }
  }
}
