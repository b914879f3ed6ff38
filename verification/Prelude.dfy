/** What every part of the model shares. */
module Prelude {
  datatype Option<+T> = None | Some(value: T)

  lemma SubsetIsSmaller<T>(a: set<T>, b: set<T>)
    requires a <= b
    ensures |a| <= |b|
  {
    assert b == a + (b - a);
  }

  // ---- The order of Go's `<` on strings ----

  predicate Less(a: string, b: string) {
    b != "" && (a == "" || a[0] < b[0] || (a[0] == b[0] && Less(a[1..], b[1..])))
  }

  lemma {:induction false} LessIsTotal(a: string, b: string)
    ensures a == b || Less(a, b) || Less(b, a)
    ensures !(Less(a, b) && Less(b, a)) && !Less(a, a)
  {
    if a != "" && b != "" && a[0] == b[0] {
      LessIsTotal(a[1..], b[1..]);
      assert a == [a[0]] + a[1..] && b == [b[0]] + b[1..];
    }
    if a != "" { LessIsTotal(a[1..], a[1..]); }
  }

  lemma {:induction false} LessIsTransitive(a: string, b: string, c: string)
    requires Less(a, b) && Less(b, c)
    ensures Less(a, c)
  {
    if a != "" && a[0] == b[0] == c[0] { LessIsTransitive(a[1..], b[1..], c[1..]); }
  }

  /** Where a key goes in an ascending list: behind its equals. */
  method Place(keys: seq<string>, key: string) returns (at: nat)
    ensures at <= |keys|
    ensures forall j | 0 <= j < at :: !Less(key, keys[j])
    ensures at < |keys| ==> Less(key, keys[at])
  {
    at := 0;
    while at < |keys| && !Less(key, keys[at])
      invariant 0 <= at <= |keys|
      invariant forall j | 0 <= j < at :: !Less(key, keys[j])
    {
      at := at + 1;
    }
  }
}
