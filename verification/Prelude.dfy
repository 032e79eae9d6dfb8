/** Small shared vocabulary: optional values, Python-style list tails, finite sums. */
module Prelude {

  datatype Option<+T> = None | Some(value: T)

  /** A keyword argument, or the default for one that is not given. */
  function Given<T>(argument: Option<T>, default: T): T {
    if argument.Some? then argument.value else default
  }

  /** Lookup in a `defaultdict(set)`: a missing key stands for the empty set. */
  function At<K, V>(m: map<K, set<V>>, k: K): set<V> {
    if k in m then m[k] else {}
  }

  /** Lookup in a dictionary of lists with `[]` as the default. */
  function ListAt<K, V>(m: map<K, seq<V>>, k: K): seq<V> {
    if k in m then m[k] else []
  }

  /** Python's `s[-n:]`. A zero `n` gives the whole list, a negative one drops a prefix. */
  function Tail<T>(s: seq<T>, n: int): (t: seq<T>)
    ensures n > 0 ==> |t| == (if |s| < n then |s| else n)
    ensures n == 0 ==> t == s
    ensures n < 0 ==> |t| == if |s| + n > 0 then |s| + n else 0
    ensures |t| <= |s| && t == s[|s| - |t|..]
  {
    if n > 0 then (if |s| <= n then s else s[|s| - n..])
    else if -n <= |s| then s[-n..] else []
  }

  /** The elements of `s` that satisfy `p`, in order. */
  function Filter<T>(s: seq<T>, p: T -> bool): seq<T> {
    if s == [] then []
    else Filter(s[..|s| - 1], p) + (if p(s[|s| - 1]) then [s[|s| - 1]] else [])
  }

  lemma {:induction false} FilterIn<T>(s: seq<T>, p: T -> bool, x: T)
    ensures x in Filter(s, p) <==> x in s && p(x)
  {
    if s != [] {
      FilterIn(s[..|s| - 1], p, x);
      assert s == s[..|s| - 1] + [s[|s| - 1]];
    }
  }

  /** The finite sum of `f` over `ids`. */
  ghost function Sum(ids: set<nat>, f: map<nat, int>): int
    requires ids <= f.Keys
  {
    if ids == {} then 0 else
      var x :| x in ids;
      f[x] + Sum(ids - {x}, f)
  }

  lemma {:induction false} SumSplit(ids: set<nat>, f: map<nat, int>, x: nat)
    requires ids <= f.Keys && x in ids
    ensures Sum(ids, f) == f[x] + Sum(ids - {x}, f)
    decreases |ids|
  {
    var y :| y in ids && Sum(ids, f) == f[y] + Sum(ids - {y}, f);
    if y != x {
      SumSplit(ids - {y}, f, x);
      SumSplit(ids - {x}, f, y);
      assert ids - {y} - {x} == ids - {x} - {y};
    }
  }

  lemma {:induction false} SumMonotone(ids: set<nat>, f: map<nat, int>, g: map<nat, int>)
    requires ids <= f.Keys && ids <= g.Keys
    requires forall x | x in ids :: f[x] <= g[x]
    ensures Sum(ids, f) <= Sum(ids, g)
    ensures (exists x :: x in ids && f[x] < g[x]) ==> Sum(ids, f) < Sum(ids, g)
    decreases |ids|
  {
    if ids != {} {
      var x :| x in ids;
      if y :| y in ids && f[y] < g[y] {
        x := y;
      }
      SumSplit(ids, f, x);
      SumSplit(ids, g, x);
      SumMonotone(ids - {x}, f, g);
    }
  }

  lemma SumCongruent(ids: set<nat>, f: map<nat, int>, g: map<nat, int>)
    requires ids <= f.Keys && ids <= g.Keys
    requires forall x | x in ids :: f[x] == g[x]
    ensures Sum(ids, f) == Sum(ids, g)
  {
    SumMonotone(ids, f, g);
    SumMonotone(ids, g, f);
  }

  // ----- Remainders -----

  lemma Successor(a: nat, t: nat)
    requires t > 0
    ensures (a + 1) % t == if a % t == t - 1 then 0 else a % t + 1
  {
    var q, r := a / t, a % t;
    var q', r' := (a + 1) / t, (a + 1) % t;
    assert q' * t + r' == q * t + r + 1;
    if r == t - 1 {
      assert q' * t + r' == (q + 1) * t;
      SameRemainder(q', r', q + 1, 0, t);
    } else {
      SameRemainder(q', r', q, r + 1, t);
    }
  }

  lemma SameRemainder(q: int, r: nat, q': int, r': nat, t: nat)
    requires r < t && r' < t && q * t + r == q' * t + r'
    ensures r == r'
  {
    if q < q' {
      Multiples(q + 1, q', t);
    } else if q' < q {
      Multiples(q' + 1, q, t);
    }
  }

  lemma Multiples(a: int, b: int, t: nat)
    requires a <= b
    ensures a * t <= b * t
  {
  }
}
