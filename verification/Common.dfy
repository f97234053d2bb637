module Common {
  datatype Option<+T> = None | Some(value: T)

  function Max(a: nat, b: nat): nat {
    if a < b then b else a
  }

  function Min(a: nat, b: nat): nat {
    if a < b then a else b
  }

  /** The close code for a reset connection. */
  const ResetConnection := 4205

  /** A chain of hooks in which none objects. */
  predicate AllPass(hooks: seq<bool>) {
    forall i | 0 <= i < |hooks| :: hooks[i]
  }

  lemma RemovingTwice<K, V>(m: map<K, V>, a: set<K>, b: set<K>)
    ensures m - (a + b) == m - a - b
  {
  }

  lemma AddingLast<K, V>(m: map<K, V>, n: map<K, V>, k: K, v: V)
    ensures m + n[k := v] == (m + n)[k := v]
  {
  }

  lemma EndOfConcat<T>(a: seq<T>, b: seq<T>)
    requires b != []
    ensures (a + b)[..|a + b| - 1] == a + b[..|b| - 1] && (a + b)[|a + b| - 1] == b[|b| - 1]
  {
  }

  lemma Associates<T>(a: seq<T>, b: seq<T>, c: seq<T>)
    ensures a + b + c == a + (b + c)
  {
  }

  /** What two sequences share up to `k`, seen from `n` on. */
  lemma SharedFront<T>(a: seq<T>, b: seq<T>, n: nat, k: nat)
    requires n <= k <= |a| && a[..k] <= b
    ensures k <= |b| && b[..n] == a[..n] && a[n..][..k - n] <= b[n..]
  {
    assert b[..k] == a[..k];
    assert b[..n] == b[..k][..n] && a[..n] == a[..k][..n];
    assert a[n..][..k - n] == a[..k][n..] && b[n..][..k - n] == b[..k][n..];
  }
}
