/**
 * Python dictionaries built from a sequence of key/value pairs. The plain
 * map view keeps, for each key, the value of its last pair; the ordered view
 * also keeps Python's insertion order (a key stays where it was first put).
 */
module Maps {
  import opened Wrappers
  import opened Sequences

  /** `{k: v for k, v in pairs}` as a map: the last value of every key. */
  function LastWins<K(==), V>(pairs: seq<(K, V)>): (m: map<K, V>)
    ensures m.Keys == set i | 0 <= i < |pairs| :: pairs[i].0
  {
    if pairs == [] then map[]
    else LastWins(pairs[..|pairs| - 1])[pairs[|pairs| - 1].0 := pairs[|pairs| - 1].1]
  }

  /** The value a key ends up with is the one of its last occurrence. */
  lemma {:induction false} LastWinsAt<K, V>(pairs: seq<(K, V)>, i: nat)
    requires i < |pairs|
    requires forall j :: i < j < |pairs| ==> pairs[j].0 != pairs[i].0
    ensures pairs[i].0 in LastWins(pairs) && LastWins(pairs)[pairs[i].0] == pairs[i].1
  {
    if i < |pairs| - 1 {
      LastWinsAt(pairs[..|pairs| - 1], i);
    }
  }

  lemma LastWinsSnoc<K, V>(pairs: seq<(K, V)>, p: (K, V))
    ensures LastWins(pairs + [p]) == LastWins(pairs)[p.0 := p.1]
  {
    assert (pairs + [p])[..|pairs|] == pairs;
  }

  /** The pairs `f` yields for the elements of `xs`, in order; `None` yields nothing. */
  function Collect<A, K, V>(xs: seq<A>, f: A -> Option<(K, V)>): seq<(K, V)>
  {
    if xs == [] then []
    else
      var init := Collect(xs[..|xs| - 1], f);
      match f(xs[|xs| - 1])
      case None => init
      case Some(p) => init + [p]
  }

  /** The map of collected pairs gives a key the value of the last element that yields it. */
  lemma {:induction false} CollectLastWins<A, K, V>(xs: seq<A>, f: A -> Option<(K, V)>, k: nat, key: K, value: V)
    requires k < |xs| && f(xs[k]) == Some((key, value))
    requires forall j :: k < j < |xs| && f(xs[j]).Some? ==> f(xs[j]).value.0 != key
    ensures key in LastWins(Collect(xs, f)) && LastWins(Collect(xs, f))[key] == value
  {
    var n := |xs| - 1;
    var init := xs[..n];
    if k < n {
      assert forall j :: 0 <= j < n ==> init[j] == xs[j];
      CollectLastWins(init, f, k, key, value);
    }
    match f(xs[n])
    case None =>
    case Some(p) => LastWinsSnoc(Collect(init, f), p);
  }

  /** A key no element yields is absent from the map of collected pairs. */
  lemma {:induction false} CollectKeyAbsent<A, K, V>(xs: seq<A>, f: A -> Option<(K, V)>, key: K)
    requires forall j :: 0 <= j < |xs| && f(xs[j]).Some? ==> f(xs[j]).value.0 != key
    ensures key !in LastWins(Collect(xs, f))
  {
    if xs != [] {
      var n := |xs| - 1;
      var init := xs[..n];
      assert forall j :: 0 <= j < n ==> init[j] == xs[j];
      CollectKeyAbsent(init, f, key);
      match f(xs[n])
      case None =>
      case Some(p) => LastWinsSnoc(Collect(init, f), p);
    }
  }

  function Keys<K, V>(d: seq<(K, V)>): (ks: seq<K>)
    ensures |ks| == |d| && forall i :: 0 <= i < |d| ==> ks[i] == d[i].0
  {
    seq(|d|, i requires 0 <= i < |d| => d[i].0)
  }

  /** Each element once, at the place where it first occurs. */
  function FirstOccurrences<T(==)>(s: seq<T>): (r: seq<T>)
    ensures Distinct(r)
    ensures forall i :: 0 <= i < |r| ==> r[i] in s
    ensures forall i :: 0 <= i < |s| ==> s[i] in r
  {
    if s == [] then []
    else if s[|s| - 1] in s[..|s| - 1] then FirstOccurrences(s[..|s| - 1])
    else FirstOccurrences(s[..|s| - 1]) + [s[|s| - 1]]
  }

  /** `d[k] = v` on an insertion-ordered dictionary with distinct keys. */
  function Insert<K(==), V>(d: seq<(K, V)>, k: K, v: V): (r: seq<(K, V)>)
    requires Distinct(Keys(d))
    ensures k in Keys(d) ==> Keys(r) == Keys(d)
    ensures k !in Keys(d) ==> Keys(r) == Keys(d) + [k]
    ensures forall j :: 0 <= j < |r| && r[j].0 == k ==> r[j].1 == v
    ensures forall j :: 0 <= j < |r| && r[j].0 != k ==> j < |d| && r[j] == d[j]
  {
    if d == [] then [(k, v)]
    else if d[0].0 == k then [(k, v)] + d[1..]
    else [d[0]] + Insert(d[1..], k, v)
  }

  /**
   * The dictionary comprehension with its insertion order: keys in order of
   * first occurrence, each bound to the value of its last occurrence.
   */
  function InsertAll<K(==), V>(pairs: seq<(K, V)>): (d: seq<(K, V)>)
    ensures Keys(d) == FirstOccurrences(Keys(pairs))
    ensures forall j :: 0 <= j < |d| ==> d[j].0 in LastWins(pairs) && d[j].1 == LastWins(pairs)[d[j].0]
  {
    if pairs == [] then []
    else
      var n := |pairs| - 1;
      assert Keys(pairs[..n]) == Keys(pairs)[..n];
      Insert(InsertAll(pairs[..n]), pairs[n].0, pairs[n].1)
  }
}
