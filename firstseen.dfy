/**
 * First-seen deduplication: the `seen` set plus output list that the
 * scraper keeps while it walks its candidates.
 */
module FirstSeen {

  predicate NoDuplicates(xs: seq<string>) {
    forall i, j :: 0 <= i < j < |xs| ==> xs[i] != xs[j]
  }

  /** `xs` with every element after its first occurrence dropped. */
  function Dedup(xs: seq<string>): seq<string> {
    if xs == [] then []
    else
      var kept := Dedup(xs[..|xs| - 1]);
      if xs[|xs| - 1] in kept then kept else kept + [xs[|xs| - 1]]
  }

  /** One more element is kept exactly when it has not been seen. */
  lemma DedupSnoc(xs: seq<string>, x: string)
    ensures Dedup(xs + [x]) == if x in Dedup(xs) then Dedup(xs) else Dedup(xs) + [x]
  {
    assert (xs + [x])[..|xs|] == xs;
  }

  /** The position of the first occurrence of `x` in `xs`. */
  function FirstIndex(xs: seq<string>, x: string): (k: nat)
    requires x in xs
    ensures k < |xs| && xs[k] == x && x !in xs[..k]
  {
    if xs[0] == x then 0 else 1 + FirstIndex(xs[1..], x)
  }

  /** Deduplication keeps exactly the elements of its input, each once. */
  lemma {:induction false} DedupElements(xs: seq<string>)
    ensures NoDuplicates(Dedup(xs))
    ensures forall x :: x in Dedup(xs) <==> x in xs
  {
    if xs != [] {
      var init := xs[..|xs| - 1];
      DedupElements(init);
      assert xs == init + [xs[|xs| - 1]];
    }
  }

  /** Deduplication lists the elements in the order of their first occurrence. */
  lemma {:induction false} DedupFirstSeenOrder(xs: seq<string>)
    ensures forall i, j :: 0 <= i < j < |Dedup(xs)| ==>
              Dedup(xs)[i] in xs && Dedup(xs)[j] in xs &&
              FirstIndex(xs, Dedup(xs)[i]) < FirstIndex(xs, Dedup(xs)[j])
  {
    if xs != [] {
      var init := xs[..|xs| - 1];
      var last := xs[|xs| - 1];
      assert xs == init + [last];
      DedupFirstSeenOrder(init);
      DedupElements(init);
      var kept := Dedup(init);
      var d := Dedup(xs);
      forall i, j | 0 <= i < j < |d|
        ensures d[i] in xs && d[j] in xs && FirstIndex(xs, d[i]) < FirstIndex(xs, d[j])
      {
        assert d[i] == kept[i] && d[i] in init;
        FirstIndexAppend(init, last, d[i]);
        assert FirstIndex(xs, d[i]) == FirstIndex(init, d[i]) < |init|;
        if j < |kept| {
          assert d[j] == kept[j];
          FirstIndexAppend(init, last, d[j]);
          assert FirstIndex(init, kept[i]) < FirstIndex(init, kept[j]);
        } else {
          assert d[j] == last && last !in init;
          assert FirstIndex(xs, last) == |init|;
        }
      }
    } else {
      assert Dedup(xs) == [];
    }
  }

  lemma FirstIndexAppend(xs: seq<string>, y: string, x: string)
    requires x in xs
    ensures FirstIndex(xs + [y], x) == FirstIndex(xs, x)
  {
    var k, k' := FirstIndex(xs, x), FirstIndex(xs + [y], x);
    assert (xs + [y])[k] == x;
    assert xs[..k] == (xs + [y])[..k];
  }

  /** Deduplication never lengthens a list. */
  lemma {:induction false} DedupNotLonger(xs: seq<string>)
    ensures |Dedup(xs)| <= |xs|
  {
    if xs != [] {
      DedupNotLonger(xs[..|xs| - 1]);
    }
  }

  /** A list without duplicates is its own deduplication. */
  lemma {:induction false} DedupOfDistinct(xs: seq<string>)
    requires NoDuplicates(xs)
    ensures Dedup(xs) == xs
  {
    if xs != [] {
      var init := xs[..|xs| - 1];
      DedupOfDistinct(init);
      assert xs == init + [xs[|xs| - 1]];
    }
  }

  /** Deduplicating twice is deduplicating once. */
  lemma DedupIdempotent(xs: seq<string>)
    ensures Dedup(Dedup(xs)) == Dedup(xs)
  {
    DedupElements(xs);
    DedupOfDistinct(Dedup(xs));
  }

  /** Deduplication of a concatenation: the second part adds only what the first lacked. */
  lemma {:induction false} DedupAppend(xs: seq<string>, ys: seq<string>)
    ensures Dedup(xs + ys) == Dedup(xs) + Dedup(Unseen(ys, xs))
    ensures Dedup(xs) <= Dedup(xs + ys)
    decreases |ys|
  {
    if ys == [] {
      assert xs + ys == xs;
    } else {
      var init, last := ys[..|ys| - 1], ys[|ys| - 1];
      var u0 := Unseen(init, xs);
      DedupAppend(xs, init);
      ConcatSnoc(xs, init, last);
      assert ys == init + [last];
      DedupSnoc(xs + init, last);
      UnseenSnoc(init, last, xs);
      DedupElements(xs + init);
      if last !in xs {
        DedupSnoc(u0, last);
        DedupElements(u0);
        UnseenElements(init, xs);
        ConcatSnoc(Dedup(xs), Dedup(u0), last);
      }
    }
  }

  /** One more element of `ys` is unseen exactly when `xs` lacks it. */
  lemma UnseenSnoc(ys: seq<string>, y: string, xs: seq<string>)
    ensures Unseen(ys + [y], xs) == if y in xs then Unseen(ys, xs) else Unseen(ys, xs) + [y]
  {
    assert (ys + [y])[..|ys|] == ys;
  }

  /** The last element of `a + b` and what precedes it, for a non-empty `b`. */
  lemma SnocSplit<T>(a: seq<T>, b: seq<T>)
    requires b != []
    ensures (a + b)[..|a + b| - 1] == a + b[..|b| - 1]
    ensures (a + b)[|a + b| - 1] == b[|b| - 1]
  {
  }

  lemma ConcatSnoc<T>(a: seq<T>, b: seq<T>, x: T)
    ensures (a + b) + [x] == a + (b + [x])
  {
  }

  /** The elements of `ys` that do not occur in `xs`, in order. */
  function Unseen(ys: seq<string>, xs: seq<string>): seq<string> {
    if ys == [] then []
    else
      var init := Unseen(ys[..|ys| - 1], xs);
      if ys[|ys| - 1] in xs then init else init + [ys[|ys| - 1]]
  }

  lemma {:induction false} UnseenElements(ys: seq<string>, xs: seq<string>)
    ensures forall y :: y in Unseen(ys, xs) <==> y in ys && y !in xs
  {
    if ys != [] {
      UnseenElements(ys[..|ys| - 1], xs);
      assert ys == ys[..|ys| - 1] + [ys[|ys| - 1]];
    }
  }
}
