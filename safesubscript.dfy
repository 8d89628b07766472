/** `subscript(safe:)` on arrays: the element at an index, or nil out of bounds. */
module SafeSubscript {
  import opened Wrappers

  /** The element at `index` when `index` is one of the array's indices, and `None` otherwise. */
  function SafeGet<T>(s: seq<T>, index: int): (r: Option<T>)
    ensures r.Some? <==> 0 <= index < |s|
    ensures r.Some? ==> r.value == s[index]
  {
    if 0 <= index < |s| then Some(s[index]) else None
  }

  /** Looking up in a concatenation looks up in the part the index falls in. */
  lemma SafeGetAppend<T>(a: seq<T>, b: seq<T>, index: int)
    ensures SafeGet(a + b, index) == if index < |a| then SafeGet(a, index) else SafeGet(b, index - |a|)
  {
  }

  /** Every index of the empty array is out of bounds. */
  lemma SafeGetEmpty<T>(s: seq<T>, index: int)
    requires s == []
    ensures SafeGet(s, index) == None
  {
  }

  /** The safe lookups of two arrays agree at every index exactly when the arrays are equal. */
  lemma SafeGetExtensional<T>(a: seq<T>, b: seq<T>)
    ensures (forall i :: SafeGet(a, i) == SafeGet(b, i)) <==> a == b
  {
    if forall i :: SafeGet(a, i) == SafeGet(b, i) {
      var shorter := if |a| < |b| then |a| else |b|;
      assert SafeGet(a, shorter) == SafeGet(b, shorter);
      forall i | 0 <= i < |a| ensures a[i] == b[i] {
        assert SafeGet(a, i) == SafeGet(b, i);
      }
    }
  }
}
