/** Values shared by every part of the synchronisation core. */
module Common {

  datatype Option<+T> = None | Some(value: T)

  /** A link-layer (MAC) address: the identity of a peer. */
  type Mac = string

  /** FastBle's `BleDevice`, reduced to what the core reads of it: its address and display name. */
  datatype BleDevice = BleDevice(mac: Mac, name: string)

  /** Identity of a remote listener (an `ICoreBleListener` binder). */
  type ListenerId = int

  /**
   * Enumerating a `HashMap` (`map { it.value }`, `forEach`): every value exactly once, in an order
   * the platform does not specify. The ghost `keys` records the order that was taken.
   */
  method MapValues<K, V>(m: map<K, V>) returns (values: seq<V>, ghost keys: seq<K>)
    ensures |values| == |keys| == |m|
    ensures multiset(keys) == multiset(m.Keys)
    ensures forall i :: 0 <= i < |keys| ==> keys[i] in m && values[i] == m[keys[i]]
  {
    var rest := m.Keys;
    values, keys := [], [];
    while rest != {}
      invariant rest <= m.Keys
      invariant |values| == |keys|
      invariant multiset(keys) + multiset(rest) == multiset(m.Keys)
      invariant forall i :: 0 <= i < |keys| ==> keys[i] in m && values[i] == m[keys[i]]
      decreases |rest|
    {
      var k :| k in rest;
      assert multiset(rest) == multiset(rest - {k}) + multiset{k};
      values, keys := values + [m[k]], keys + [k];
      rest := rest - {k};
    }
    assert |multiset(keys)| == |multiset(m.Keys)|;
  }

  /** Every key occurs at most once in a sequence whose multiset is that of a set. */
  lemma {:induction false} SetMultisetDistinct<K>(keys: seq<K>, s: set<K>, i: nat, j: nat)
    requires multiset(keys) == multiset(s)
    requires i < j < |keys|
    ensures keys[i] != keys[j]
  {
    var k := keys[i];
    assert keys == keys[..j] + keys[j..];
    assert multiset(keys)[k] == multiset(keys[..j])[k] + multiset(keys[j..])[k];
    assert k in multiset(keys[..j]) by { assert keys[..j][i] == k; }
    assert multiset(keys[j..])[k] == 0;
    assert keys[j..][0] == keys[j];
  }
}
