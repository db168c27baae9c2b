/** Keeping, of several entries with one key, the first of the best; entries without a key all stay. */
module Composition {

  function IndexOfKey<T>(out: seq<T>, key: T -> string, k: string): (i: nat)
    ensures i <= |out|
    ensures i < |out| ==> key(out[i]) == k
    ensures forall j :: 0 <= j < i ==> key(out[j]) != k
  {
    if out == [] then 0
    else if key(out[0]) == k then 0
    else 1 + IndexOfKey(out[1..], key, k)
  }

  function DedupeStep<T>(out: seq<T>, key: T -> string, rank: T -> int, x: T): seq<T> {
    var i := IndexOfKey(out, key, key(x));
    if key(x) == "" || i == |out| then out + [x]
    else if rank(x) > rank(out[i]) then out[i := x]
    else out
  }

  function Dedupe<T>(xs: seq<T>, key: T -> string, rank: T -> int): seq<T> {
    if xs == [] then []
    else DedupeStep(Dedupe(xs[..|xs| - 1], key, rank), key, rank, xs[|xs| - 1])
  }

  function Keyless<T>(xs: seq<T>, key: T -> string): seq<T> {
    if xs == [] then []
    else Keyless(xs[..|xs| - 1], key) + (if key(xs[|xs| - 1]) == "" then [xs[|xs| - 1]] else [])
  }

  ghost predicate DistinctKeys<T>(xs: seq<T>, key: T -> string) {
    forall i, j :: 0 <= i < j < |xs| && key(xs[i]) != "" ==> key(xs[i]) != key(xs[j])
  }

  /** xs[k] ranks best among the entries with its key, and is the first one that does. */
  ghost predicate FirstBest<T>(xs: seq<T>, key: T -> string, rank: T -> int, k: nat) {
    && k < |xs|
    && (forall j :: 0 <= j < k && key(xs[j]) == key(xs[k]) ==> rank(xs[j]) < rank(xs[k]))
    && (forall j :: k < j < |xs| && key(xs[j]) == key(xs[k]) ==> rank(xs[j]) <= rank(xs[k]))
  }

  ghost predicate IsFirstBest<T>(xs: seq<T>, key: T -> string, rank: T -> int, x: T) {
    exists k: nat :: FirstBest(xs, key, rank, k) && xs[k] == x
  }

  lemma {:induction false} DedupeDistinct<T>(xs: seq<T>, key: T -> string, rank: T -> int)
    ensures DistinctKeys(Dedupe(xs, key, rank), key)
  {
    if xs != [] {
      var n := |xs| - 1;
      DedupeDistinct(xs[..n], key, rank);
      var out, out' := Dedupe(xs[..n], key, rank), Dedupe(xs, key, rank);
      assert forall j :: 0 <= j < |out| ==> key(out'[j]) == key(out[j]);
    }
  }

  lemma {:induction false} KeylessUpdate<T>(xs: seq<T>, key: T -> string, i: nat, x: T)
    requires i < |xs| && key(xs[i]) != "" && key(x) != ""
    ensures Keyless(xs[i := x], key) == Keyless(xs, key)
  {
    var n := |xs| - 1;
    if i < n {
      KeylessUpdate(xs[..n], key, i, x);
      assert xs[i := x][..n] == xs[..n][i := x];
    } else {
      assert xs[i := x][..n] == xs[..n];
    }
  }

  lemma {:induction false} DedupeKeyless<T>(xs: seq<T>, key: T -> string, rank: T -> int)
    ensures Keyless(Dedupe(xs, key, rank), key) == Keyless(xs, key)
  {
    if xs != [] {
      var n := |xs| - 1;
      var out, x := Dedupe(xs[..n], key, rank), xs[n];
      DedupeKeyless(xs[..n], key, rank);
      var i := IndexOfKey(out, key, key(x));
      if key(x) == "" || i == |out| {
        assert Dedupe(xs, key, rank)[..|out|] == out;
      } else if rank(x) > rank(out[i]) {
        KeylessUpdate(out, key, i, x);
      }
    }
  }

  lemma SomeWithKey<T>(out: seq<T>, key: T -> string, rank: T -> int, y: T, x: T)
    requires y == x || IndexOfKey(out, key, key(y)) < |out|
    ensures var out' := DedupeStep(out, key, rank, x); IndexOfKey(out', key, key(y)) < |out'|
  {
    var out' := DedupeStep(out, key, rank, x);
    var i, k := IndexOfKey(out, key, key(x)), IndexOfKey(out, key, key(y));
    if k < |out| {
      assert key(out'[k]) == key(y);
    } else {
      assert out'[|out|] == x;
    }
  }

  /** What the entries kept so far stand for. */
  ghost predicate Represents<T>(out: seq<T>, xs: seq<T>, key: T -> string, rank: T -> int) {
    && DistinctKeys(out, key)
    && (forall k :: 0 <= k < |out| ==> out[k] in xs && (key(out[k]) != "" ==> IsFirstBest(xs, key, rank, out[k])))
    && (forall j :: 0 <= j < |xs| ==> IndexOfKey(out, key, key(xs[j])) < |out|)
  }

  lemma BestStays<T>(xs: seq<T>, key: T -> string, rank: T -> int, y: T, x: T)
    requires IsFirstBest(xs, key, rank, y) && (key(x) == key(y) ==> rank(x) <= rank(y))
    ensures IsFirstBest(xs + [x], key, rank, y)
  {
    var b: nat :| FirstBest(xs, key, rank, b) && xs[b] == y;
    assert FirstBest(xs + [x], key, rank, b) && (xs + [x])[b] == y;
  }

  lemma BestOutranks<T>(xs: seq<T>, key: T -> string, rank: T -> int, y: T, j: nat)
    requires IsFirstBest(xs, key, rank, y) && j < |xs| && key(xs[j]) == key(y)
    ensures rank(xs[j]) <= rank(y)
  {
    var b: nat :| FirstBest(xs, key, rank, b) && xs[b] == y;
  }

  /** An entry that outranks the one kept for its key outranks every earlier one. */
  lemma NewIsBest<T>(out: seq<T>, xs: seq<T>, key: T -> string, rank: T -> int, x: T)
    requires forall j :: 0 <= j < |xs| ==> IndexOfKey(out, key, key(xs[j])) < |out|
    requires var i := IndexOfKey(out, key, key(x)); i < |out| ==> IsFirstBest(xs, key, rank, out[i]) && rank(x) > rank(out[i])
    ensures IsFirstBest(xs + [x], key, rank, x)
  {
    var i := IndexOfKey(out, key, key(x));
    forall j: nat | j < |xs| && key(xs[j]) == key(x)
      ensures rank(xs[j]) < rank(x)
    {
      BestOutranks(xs, key, rank, out[i], j);
    }
    assert FirstBest(xs + [x], key, rank, |xs|) && (xs + [x])[|xs|] == x;
  }

  lemma StepRepresents<T>(out: seq<T>, xs: seq<T>, key: T -> string, rank: T -> int, x: T)
    requires Represents(out, xs, key, rank)
    requires DistinctKeys(DedupeStep(out, key, rank, x), key)
    ensures Represents(DedupeStep(out, key, rank, x), xs + [x], key, rank)
  {
    var out', i := DedupeStep(out, key, rank, x), IndexOfKey(out, key, key(x));
    forall k | 0 <= k < |out'|
      ensures out'[k] in xs + [x] && (key(out'[k]) != "" ==> IsFirstBest(xs + [x], key, rank, out'[k]))
    {
      if k < |out| && !(k == i && out' == out[i := x] && out' != out) {
        assert out'[k] == out[k];
        if key(out[k]) != "" {
          assert key(x) == key(out[k]) ==> i == k;
          BestStays(xs, key, rank, out[k], x);
        }
      } else if key(x) != "" {
        NewIsBest(out, xs, key, rank, x);
      }
    }
    forall j | 0 <= j < |xs + [x]|
      ensures IndexOfKey(out', key, key((xs + [x])[j])) < |out'|
    {
      SomeWithKey(out, key, rank, (xs + [x])[j], x);
    }
  }

  lemma {:induction false} DedupeRepresents<T>(xs: seq<T>, key: T -> string, rank: T -> int)
    ensures Represents(Dedupe(xs, key, rank), xs, key, rank)
  {
    if xs != [] {
      var front, x := xs[..|xs| - 1], xs[|xs| - 1];
      var out, out' := Dedupe(front, key, rank), Dedupe(xs, key, rank);
      assert Represents(out', xs, key, rank) by {
        DedupeRepresents(front, key, rank);
        DedupeDistinct(xs, key, rank);
        assert out' == DedupeStep(out, key, rank, x) && xs == front + [x];
        StepRepresents(out, front, key, rank, x);
      }
    }
  }

  lemma DedupeBest<T>(xs: seq<T>, key: T -> string, rank: T -> int)
    ensures forall x :: x in Dedupe(xs, key, rank) ==> x in xs
    ensures forall x :: x in Dedupe(xs, key, rank) && key(x) != "" ==> IsFirstBest(xs, key, rank, x)
    ensures forall x :: x in xs ==> IndexOfKey(Dedupe(xs, key, rank), key, key(x)) < |Dedupe(xs, key, rank)|
  {
    DedupeRepresents(xs, key, rank);
  }
}
