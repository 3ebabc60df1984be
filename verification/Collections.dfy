/** What several components need of collections. */
module Collections {

  datatype Option<T> = None | Some(value: T)

  /** Some element of a non-empty set, as when Go ranges over a map. */
  method Pick<T>(s: set<T>) returns (x: T)
    requires s != {}
    ensures x in s
  {
    x :| x in s;
  }

  lemma Regroup<T>(a: seq<T>, b: seq<T>, c: seq<T>)
    ensures (a + b) + c == a + (b + c)
  {
  }

  predicate WordAt(s: string, word: string, k: nat) {
    k + |word| <= |s| && s[k..k + |word|] == word
  }

  /** `strings.Contains`, `bytes.Contains`. */
  predicate Contains(s: string, word: string) {
    exists k :: 0 <= k <= |s| && WordAt(s, word, k)
  }

  lemma InMore<T>(s: seq<T>, x: T, y: T)
    ensures y in s + [x] <==> y in s || y == x
  {
    assert (s + [x])[|s|] == x;
    assert forall k :: 0 <= k < |s| ==> (s + [x])[k] == s[k];
  }
}
