/** Small shared vocabulary: optional values and windows over append-only logs. */
module Common {

  datatype Option<+T> = None | Some(value: T)

  /** What string stripping treats as whitespace. */
  predicate IsSpace(c: char) {
    var n := c as int;
    9 <= n <= 13 || 28 <= n <= 32 || n == 0x85 || n == 0xA0 || n == 0x1680 || 0x2000 <= n <= 0x200A ||
    n == 0x2028 || n == 0x2029 || n == 0x202F || n == 0x205F || n == 0x3000
  }

  /** The newest `limit` elements of a log, kept in log order (oldest first). */
  function Newest<T>(log: seq<T>, limit: nat): (r: seq<T>)
    ensures |r| == if |log| <= limit then |log| else limit
  {
    if |log| <= limit then log else log[|log| - limit..]
  }

  lemma ConsSplit<T>(pre: seq<T>, mid: seq<T>, post: seq<T>)
    requires pre != []
    ensures pre + mid + post == [pre[0]] + (pre[1..] + mid + post)
  {
  }

  lemma SnocConcat<T>(xs: seq<T>, x: T, ys: seq<T>)
    ensures (xs + [x]) + ys == xs + ([x] + ys)
  {
  }

  lemma ConcatAssoc<T>(a: seq<T>, b: seq<T>, c: seq<T>)
    ensures a + (b + c) == (a + b) + c
  {
  }

  lemma SubsetFewer<T>(a: set<T>, b: set<T>)
    requires a <= b
    ensures |a| <= |b|
  {
    assert b == a + (b - a);
  }

  /** `ys` is what stands at these places of `xs`, in order. */
  ghost predicate Selects<T>(xs: seq<T>, places: seq<int>, ys: seq<T>) {
    && |places| == |ys|
    && (forall j, k :: 0 <= j < k < |places| ==> places[j] < places[k])
    && (forall k :: 0 <= k < |places| ==> 0 <= places[k] < |xs| && ys[k] == xs[places[k]])
  }

  lemma SelectsSkip<T>(xs: seq<T>, x: T, places: seq<int>, ys: seq<T>)
    requires Selects(xs, places, ys)
    ensures Selects(xs + [x], places, ys) && |xs| !in places
  {
  }

  /** A shorter selection, and what it leaves out lies behind it. */
  lemma SelectsPrefix<T>(xs: seq<T>, places: seq<int>, ys: seq<T>, n: nat)
    requires Selects(xs, places, ys) && n <= |places|
    ensures Selects(xs, places[..n], ys[..n])
    ensures forall i :: i in places && i !in places[..n] ==> forall k :: 0 <= k < n ==> places[..n][k] < i
  {
    forall i | i in places && i !in places[..n] ensures forall k :: 0 <= k < n ==> places[..n][k] < i {
      var j :| 0 <= j < |places| && places[j] == i;
      forall m | 0 <= m < n ensures places[m] != i {
        assert places[..n][m] == places[m];
      }
    }
  }

  lemma SelectsTake<T>(xs: seq<T>, x: T, places: seq<int>, ys: seq<T>)
    requires Selects(xs, places, ys)
    ensures Selects(xs + [x], places + [|xs|], ys + [x])
  {
  }
}
