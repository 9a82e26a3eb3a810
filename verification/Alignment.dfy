/** Deleting elements from a sequence, and the left-to-right matching that finds such a deletion. */
module Alignment {
  /** The elements a mask keeps, and those it drops. */
  function Kept<T>(items: seq<T>, keep: seq<bool>): seq<T>
    requires |keep| == |items|
  {
    if items == [] then []
    else
      var n := |items| - 1;
      if keep[n] then Kept(items[..n], keep[..n]) + [items[n]] else Kept(items[..n], keep[..n])
  }

  function Dropped<T>(items: seq<T>, keep: seq<bool>): seq<T>
    requires |keep| == |items|
  {
    if items == [] then []
    else
      var n := |items| - 1;
      if keep[n] then Dropped(items[..n], keep[..n]) else Dropped(items[..n], keep[..n]) + [items[n]]
  }

  ghost predicate AllPass<T>(test: T -> bool, items: seq<T>) {
    forall i :: 0 <= i < |items| ==> test(items[i])
  }

  /** `keep` drops at least one element of `current`, all dropped elements pass the test, and `candidate` is left. */
  ghost predicate Deletes<T>(test: T -> bool, current: seq<T>, candidate: seq<T>, keep: seq<bool>) {
    && |keep| == |current|
    && Kept(current, keep) == candidate
    && Dropped(current, keep) != []
    && AllPass(test, Dropped(current, keep))
  }

  ghost predicate RemovesOnly<T>(test: T -> bool, current: seq<T>, candidate: seq<T>) {
    candidate != [] && exists keep: seq<bool> :: Deletes(test, current, candidate, keep)
  }

  lemma {:induction false} MaskSplits<T>(items: seq<T>, keep: seq<bool>)
    requires |keep| == |items|
    ensures multiset(Kept(items, keep)) + multiset(Dropped(items, keep)) == multiset(items)
    ensures |Kept(items, keep)| + |Dropped(items, keep)| == |items|
  {
    if items == [] {
    } else {
      var n := |items| - 1;
      var kept, dropped := Kept(items[..n], keep[..n]), Dropped(items[..n], keep[..n]);
      MaskSnoc(items, keep);
      hide Kept, Dropped;
      MaskSplits(items[..n], keep[..n]);
      MultisetSnoc(items[..n], items[n]);
      assert items == items[..n] + [items[n]];
      MultisetSnoc(kept, items[n]);
      MultisetSnoc(dropped, items[n]);
    }
  }

  lemma MaskSnoc<T>(items: seq<T>, keep: seq<bool>)
    requires |keep| == |items| > 0
    ensures var n := |items| - 1;
            var kept, dropped := Kept(items[..n], keep[..n]), Dropped(items[..n], keep[..n]);
            && Kept(items, keep) == (if keep[n] then kept + [items[n]] else kept)
            && Dropped(items, keep) == (if keep[n] then dropped else dropped + [items[n]])
  {
  }

  lemma MultisetSnoc<T>(items: seq<T>, last: T)
    ensures multiset(items + [last]) == multiset(items) + multiset{last}
  {
  }

  /** How many candidate elements the left-to-right matching has found in `items`. */
  function Greedy<T(==)>(items: seq<T>, candidate: seq<T>): (index: nat)
    ensures index <= |candidate|
  {
    if items == [] then 0
    else
      var n := |items| - 1;
      var index := Greedy(items[..n], candidate);
      if index < |candidate| && items[n] == candidate[index] then index + 1 else index
  }

  /** No other alignment gets further than the greedy one. */
  lemma {:induction false} GreedyGetsFurthest<T>(items: seq<T>, candidate: seq<T>, keep: seq<bool>)
    requires |keep| == |items| && Kept(items, keep) <= candidate
    ensures |Kept(items, keep)| <= Greedy(items, candidate)
  {
    if items == [] {
    } else {
      var n := |items| - 1;
      GreedyGetsFurthest(items[..n], candidate, keep[..n]);
    }
  }

  /** What is deleted does not depend on the alignment. */
  lemma AlignmentsDeleteTheSame<T>(items: seq<T>, keep: seq<bool>, keep': seq<bool>)
    requires |keep| == |keep'| == |items| && Kept(items, keep) == Kept(items, keep')
    ensures multiset(Dropped(items, keep)) == multiset(Dropped(items, keep'))
  {
    MaskSplits(items, keep);
    MaskSplits(items, keep');
    assert multiset(Dropped(items, keep)) == multiset(items) - multiset(Kept(items, keep));
    assert multiset(Dropped(items, keep')) == multiset(items) - multiset(Kept(items, keep'));
  }

  lemma SameElementsPass<T>(test: T -> bool, a: seq<T>, b: seq<T>)
    requires multiset(a) == multiset(b) && AllPass(test, b)
    ensures |a| == |b| && AllPass(test, a)
  {
    assert |multiset(a)| == |a| && |multiset(b)| == |b|;
    forall i | 0 <= i < |a| ensures test(a[i]) {
      assert a[i] in multiset(a) && a[i] in multiset(b);
    }
  }

  /** The greedy alignment decides the matter: if any alignment drops only passing elements, it does. */
  lemma GreedyDecides<T>(test: T -> bool, current: seq<T>, candidate: seq<T>, keep: seq<bool>)
    requires |keep| == |current| && Kept(current, keep) == candidate[..Greedy(current, candidate)]
    ensures RemovesOnly(test, current, candidate) <==>
            && candidate != [] && Greedy(current, candidate) == |candidate|
            && Dropped(current, keep) != [] && AllPass(test, Dropped(current, keep))
  {
    if candidate != [] {
      if other: seq<bool> :| Deletes(test, current, candidate, other) {
        GreedyGetsFurthest(current, candidate, other);
        AlignmentsDeleteTheSame(current, keep, other);
        SameElementsPass(test, Dropped(current, keep), Dropped(current, other));
      } else if Greedy(current, candidate) == |candidate| {
        assert !Deletes(test, current, candidate, keep);
      }
    }
  }

  lemma TooManyLeft<T>(test: T -> bool, current: seq<T>, candidate: seq<T>)
    requires |candidate| >= |current|
    ensures !RemovesOnly(test, current, candidate)
  {
    forall keep: seq<bool> ensures !Deletes(test, current, candidate, keep) {
      if |keep| == |current| {
        MaskSplits(current, keep);
      }
    }
  }

  /** The matching loop of candidateRemovesOnlyNoise, over tokens of any kind. */
  method MatchGreedily<T(==)>(test: T -> bool, current: seq<T>, candidate: seq<T>) returns (result: bool)
    ensures result <==> RemovesOnly(test, current, candidate)
  {
    if |candidate| == 0 || |candidate| >= |current| {
      if |candidate| != 0 {
        TooManyLeft(test, current, candidate);
      }
      return false;
    }
    var removed: seq<T> := [];
    var index := 0;
    ghost var keep: seq<bool> := [];
    for i := 0 to |current|
      invariant |keep| == i && index == Greedy(current[..i], candidate)
      invariant Kept(current[..i], keep) == candidate[..index]
      invariant Dropped(current[..i], keep) == removed
    {
      var token := current[i];
      assert current[..i + 1][..i] == current[..i];
      if index < |candidate| && token == candidate[index] {
        assert (keep + [true])[..i] == keep;
        index, keep := index + 1, keep + [true];
      } else {
        assert (keep + [false])[..i] == keep;
        removed, keep := removed + [token], keep + [false];
      }
    }
    assert current[..|current|] == current;
    GreedyDecides(test, current, candidate, keep);
    if index != |candidate| || |removed| == 0 {
      return false;
    }
    for i := 0 to |removed|
      invariant forall k :: 0 <= k < i ==> test(removed[k])
    {
      if !test(removed[i]) {
        return false;
      }
    }
    return true;
  }

  function Sum<T>(weight: T -> nat, items: seq<T>): nat {
    if items == [] then 0 else weight(items[0]) + Sum(weight, items[1..])
  }

  lemma {:induction false} SumSnoc<T>(weight: T -> nat, items: seq<T>, last: T)
    ensures Sum(weight, items + [last]) == Sum(weight, items) + weight(last)
  {
    if items == [] {
      assert items + [last] == [last];
      assert [last][1..] == [];
    } else {
      assert (items + [last])[1..] == items[1..] + [last];
      SumSnoc(weight, items[1..], last);
    }
  }

  /** Dropping elements of weight one lowers the sum by their number. */
  lemma {:induction false} DeletionLowersSum<T>(weight: T -> nat, items: seq<T>, keep: seq<bool>)
    requires |keep| == |items|
    requires forall i :: 0 <= i < |Dropped(items, keep)| ==> weight(Dropped(items, keep)[i]) == 1
    ensures Sum(weight, items) == Sum(weight, Kept(items, keep)) + |Dropped(items, keep)|
  {
    if items == [] {
    } else {
      var n := |items| - 1;
      var front, last := items[..n], items[n];
      assert items == front + [last];
      SumSnoc(weight, front, last);
      forall i | 0 <= i < |Dropped(front, keep[..n])| ensures weight(Dropped(front, keep[..n])[i]) == 1 {
        assert Dropped(items, keep)[i] == Dropped(front, keep[..n])[i];
      }
      DeletionLowersSum(weight, front, keep[..n]);
      if keep[n] {
        SumSnoc(weight, Kept(front, keep[..n]), last);
      } else {
        assert Dropped(items, keep)[|Dropped(items, keep)| - 1] == last;
        assert Kept(items, keep) == Kept(front, keep[..n]);
      }
    }
  }
}
