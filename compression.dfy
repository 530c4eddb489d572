/**
 * The first two steps of compressionSteps (indices.py), which rewrite the
 * index in place: every term containing a digit is deleted, then every term
 * is folded to lower case, the lists of terms that meet under one key being
 * merged into the sorted set of their ids.
 */
module Compression {
  import opened Ordering
  import opened Indexer
  import Text

  /** `re.search(r"\d", t) is not None` */
  predicate HasDigit(t: Term) {
    exists i :: 0 <= i < |t| && Text.IsDigit(t[i])
  }

  /** The terms of ks without a digit, in order. */
  function NumberFree(ks: seq<Term>): (r: seq<Term>)
    ensures forall t :: t in r <==> t in ks && !HasDigit(t)
  {
    if ks == [] then []
    else NumberFree(ks[..|ks| - 1]) + (if HasDigit(ks[|ks| - 1]) then [] else [ks[|ks| - 1]])
  }

  /** Taking a key out of the middle of a list that holds it once. */
  lemma {:induction false} WithoutMiddle(a: seq<Term>, t: Term, b: seq<Term>)
    requires t !in a && t !in b
    ensures Without(a + [t] + b, t) == a + b
  {
    if a != [] {
      assert (a + [t] + b)[1..] == a[1..] + [t] + b;
      WithoutMiddle(a[1..], t, b);
    }
  }

  /** The digit-free prefix grows by the next key when that key has no digit. */
  lemma NumberFreeOneMore(ks: seq<Term>, j: nat)
    requires j < |ks|
    ensures NumberFree(ks[..j + 1]) == NumberFree(ks[..j]) + (if HasDigit(ks[j]) then [] else [ks[j]])
  {
    assert ks[..j + 1][..j] == ks[..j];
  }

  /** In a sequence without repeats, an element does not occur after its place either. */
  lemma NotLater(ks: seq<Term>, j: nat)
    requires Distinct(ks) && j < |ks|
    ensures ks[j] !in ks[j + 1..]
  {
  }

  /** Key j of a snapshot without repeats splits the keys left so far around it. */
  lemma RemoveSplit(ks: seq<Term>, j: nat, keys: seq<Term>)
    requires Distinct(ks) && j < |ks| && keys == NumberFree(ks[..j]) + ks[j..]
    ensures keys == NumberFree(ks[..j]) + [ks[j]] + ks[j + 1..]
    ensures ks[j] !in NumberFree(ks[..j]) && ks[j] !in ks[j + 1..]
  {
    NotEarlier(ks, j);
    NotLater(ks, j);
    assert ks[j..] == [ks[j]] + ks[j + 1..];
  }

  /** Visiting key j of a snapshot without repeats: the keys left so far, after it is deleted or kept. */
  lemma RemoveStep(ks: seq<Term>, j: nat, keys: seq<Term>)
    requires Distinct(ks) && j < |ks| && keys == NumberFree(ks[..j]) + ks[j..]
    ensures ks[j] in keys
    ensures HasDigit(ks[j]) ==> Without(keys, ks[j]) == NumberFree(ks[..j + 1]) + ks[j + 1..]
    ensures !HasDigit(ks[j]) ==> keys == NumberFree(ks[..j + 1]) + ks[j + 1..]
  {
    RemoveSplit(ks, j, keys);
    NumberFreeOneMore(ks, j);
    WithoutMiddle(NumberFree(ks[..j]), ks[j], ks[j + 1..]);
  }

  /** Every key of lists was a key of before, with the same list. */
  ghost predicate SubMap(lists: map<Term, seq<DocId>>, before: map<Term, seq<DocId>>) {
    forall t :: t in lists ==> t in before && lists[t] == before[t]
  }

  /** The body of the "remove numbers" loop for key i: deleted when it holds a digit. */
  method RemoveKey(index: Index, i: Term)
    requires index.Valid() && i in index.lists
    modifies index
    ensures index.Valid() && SubMap(index.lists, old(index.lists))
    ensures index.keys == if HasDigit(i) then Without(old(index.keys), i) else old(index.keys)
  {
    if HasDigit(i) {
      index.Delete(i);
    }
  }

  /** The "remove numbers" loop: each key holding a digit is deleted; the others keep their lists and their order. */
  method RemoveNumbers(index: Index)
    requires index.Valid()
    modifies index
    ensures index.Valid()
    ensures index.keys == NumberFree(old(index.keys))
    ensures forall t :: t in index.lists <==> t in old(index.lists) && !HasDigit(t)
    ensures forall t :: t in index.lists ==> index.lists[t] == old(index.lists)[t]
  {
    ghost var before := index.lists;
    var ks := index.keys;
    var j := 0;
    while j < |ks|
      invariant 0 <= j <= |ks| && index.Valid()
      invariant index.keys == NumberFree(ks[..j]) + ks[j..]
      invariant SubMap(index.lists, before)
    {
      RemoveStep(ks, j, index.keys);
      RemoveKey(index, ks[j]);
      j := j + 1;
    }
    assert ks[..j] == ks;
  }

  /** str.lower on one character; only the ASCII letters are mapped. */
  function LowerChar(c: char): char {
    if 'A' <= c <= 'Z' then (c as int + 32) as char else c
  }

  /** `t.lower()` */
  function Lower(t: Term): (r: Term)
    ensures |r| == |t| && forall i :: 0 <= i < |t| ==> r[i] == LowerChar(t[i])
  {
    seq(|t|, i requires 0 <= i < |t| => LowerChar(t[i]))
  }

  /** Lower case is already folded. */
  lemma LowerOfLower(t: Term)
    ensures Lower(Lower(t)) == Lower(t)
  {
  }

  /**
   * The ids the case folding has put under u once the keys of done have
   * been visited: those u had, and those of every visited key that folds to
   * u.
   */
  ghost function Gathered(done: seq<Term>, before: map<Term, seq<DocId>>, u: Term): set<DocId>
    requires forall t :: t in done ==> t in before
  {
    if done == [] then (if u in before then Members(before[u]) else {})
    else
      var t := done[|done| - 1];
      Gathered(done[..|done| - 1], before, u) + (if t != u && Lower(t) == u then Members(before[t]) else {})
  }

  lemma {:induction false} GatheredMembers(done: seq<Term>, before: map<Term, seq<DocId>>, u: Term, d: DocId)
    requires forall t :: t in done ==> t in before
    ensures d in Gathered(done, before, u) <==>
      (u in before && d in before[u]) || exists t :: t in done && t != u && Lower(t) == u && d in before[t]
  {
    if done != [] {
      var init := done[..|done| - 1];
      GatheredMembers(init, before, u, d);
      assert done == init + [done[|done| - 1]];
    }
  }

  /** Some visited key other than u folds to u. */
  ghost predicate FoldsTo(done: seq<Term>, u: Term) {
    exists t :: t in done && t != u && Lower(t) == u
  }

  /** Only a lower-case term is folded to. */
  lemma FoldedIsLower(done: seq<Term>, u: Term)
    requires FoldsTo(done, u)
    ensures Lower(u) == u
  {
    var t :| t in done && t != u && Lower(t) == u;
    LowerOfLower(t);
  }

  /** The keys there after the first j keys of ks are visited: those that were and are lower case or not yet visited, and those folded to. */
  ghost predicate FoldKeys(lists: map<Term, seq<DocId>>, before: map<Term, seq<DocId>>, ks: seq<Term>, j: nat)
    requires j <= |ks|
  {
    forall u :: u in lists <==> (u in before && (Lower(u) == u || u !in ks[..j])) || FoldsTo(ks[..j], u)
  }

  /** A key that is not lower case still holds the list it had. */
  ghost predicate FoldUntouched(lists: map<Term, seq<DocId>>, before: map<Term, seq<DocId>>)
  {
    forall u :: u in lists && Lower(u) != u ==> u in before && lists[u] == before[u]
  }

  /** A lower-case key holds the ids Gathered under it. */
  ghost predicate FoldGathered(lists: map<Term, seq<DocId>>, before: map<Term, seq<DocId>>, ks: seq<Term>, j: nat)
    requires j <= |ks| && forall t :: t in ks ==> t in before
  {
    forall u :: u in lists && Lower(u) == u ==> Members(lists[u]) == Gathered(ks[..j], before, u)
  }

  /** Lists that all increased still do. */
  ghost predicate FoldIncreasing(lists: map<Term, seq<DocId>>, before: map<Term, seq<DocId>>)
  {
    (forall t :: t in before ==> Increasing(before[t])) ==> forall u :: u in lists ==> Increasing(lists[u])
  }

  /** The case-folding loop's invariant after the first j keys of ks. */
  ghost predicate Folding(lists: map<Term, seq<DocId>>, before: map<Term, seq<DocId>>, ks: seq<Term>, j: nat)
    requires j <= |ks| && forall t :: t in ks ==> t in before
  {
    FoldKeys(lists, before, ks, j) && FoldUntouched(lists, before) && FoldGathered(lists, before, ks, j)
    && FoldIncreasing(lists, before)
  }

  /** The lists after visiting key i: folded to Lower(i), merged with what is there, and i deleted. */
  function FoldOne(lists: map<Term, seq<DocId>>, i: Term): map<Term, seq<DocId>>
    requires i in lists
  {
    var lower := Lower(i);
    if lower == i then lists
    else if lower in lists then lists[lower := SortedSet(Members(lists[lower] + lists[i]))] - {i}
    else lists[lower := lists[i]] - {i}
  }

  /** Nothing is gathered under a term nobody had and no visited key folds to. */
  lemma {:induction false} NothingGathered(done: seq<Term>, before: map<Term, seq<DocId>>, u: Term)
    requires forall t :: t in done ==> t in before
    requires u !in before && !FoldsTo(done, u)
    ensures Gathered(done, before, u) == {}
  {
    if done != [] {
      assert done == done[..|done| - 1] + [done[|done| - 1]];
      NothingGathered(done[..|done| - 1], before, u);
    }
  }

  /** The facts every step lemma starts from. */
  ghost predicate StepReady(lists: map<Term, seq<DocId>>, before: map<Term, seq<DocId>>, ks: seq<Term>, j: nat)
  {
    j < |ks| && Distinct(ks) && (forall t :: t in before <==> t in ks) && Folding(lists, before, ks, j)
  }

  lemma StepKeys(lists: map<Term, seq<DocId>>, before: map<Term, seq<DocId>>, ks: seq<Term>, j: nat)
    requires StepReady(lists, before, ks, j)
    ensures ks[j] in lists
    ensures FoldKeys(FoldOne(lists, ks[j]), before, ks, j + 1)
  {
    var i := ks[j];
    NotEarlier(ks, j);
    TakeOneMore(ks, j);
    assert i in lists;
    var next := FoldOne(lists, i);
    forall u
      ensures u in next <==> (u in before && (Lower(u) == u || u !in ks[..j + 1])) || FoldsTo(ks[..j + 1], u)
    {
      assert FoldsTo(ks[..j + 1], u) <==> FoldsTo(ks[..j], u) || (i != u && Lower(i) == u);
      if u == i && FoldsTo(ks[..j + 1], u) {
        FoldedIsLower(ks[..j + 1], u);
      }
    }
  }

  lemma StepUntouched(lists: map<Term, seq<DocId>>, before: map<Term, seq<DocId>>, ks: seq<Term>, j: nat)
    requires StepReady(lists, before, ks, j) && ks[j] in lists
    ensures FoldUntouched(FoldOne(lists, ks[j]), before)
  {
    LowerOfLower(ks[j]);
  }

  lemma StepIncreasing(lists: map<Term, seq<DocId>>, before: map<Term, seq<DocId>>, ks: seq<Term>, j: nat)
    requires StepReady(lists, before, ks, j) && ks[j] in lists
    ensures FoldIncreasing(FoldOne(lists, ks[j]), before)
  {
  }

  lemma StepGathered(lists: map<Term, seq<DocId>>, before: map<Term, seq<DocId>>, ks: seq<Term>, j: nat)
    requires StepReady(lists, before, ks, j) && ks[j] in lists
    ensures FoldGathered(FoldOne(lists, ks[j]), before, ks, j + 1)
  {
    var i := ks[j];
    var done := ks[..j];
    NotEarlier(ks, j);
    TakeOneMore(ks, j);
    LowerOfLower(i);
    var lower := Lower(i);
    var next := FoldOne(lists, i);
    forall u
      ensures Gathered(ks[..j + 1], before, u)
        == Gathered(done, before, u) + (if i != u && lower == u then Members(before[i]) else {})
    {
      assert ks[..j + 1][..j] == done;
    }
    if lower != i {
      if lower in lists {
        assert Members(next[lower]) == Members(lists[lower]) + Members(lists[i]);
      } else {
        assert !FoldsTo(done, lower);
        NothingGathered(done, before, lower);
      }
    }
  }

  /** Visiting the next key keeps the invariant. */
  lemma FoldStep(lists: map<Term, seq<DocId>>, before: map<Term, seq<DocId>>, ks: seq<Term>, j: nat)
    requires j < |ks| && Distinct(ks) && forall t :: t in before <==> t in ks
    requires Folding(lists, before, ks, j)
    ensures ks[j] in lists
    ensures Folding(FoldOne(lists, ks[j]), before, ks, j + 1)
  {
    StepKeys(lists, before, ks, j);
    StepUntouched(lists, before, ks, j);
    StepIncreasing(lists, before, ks, j);
    StepGathered(lists, before, ks, j);
  }

  /** When every key has been visited, the invariant says what the step promises. */
  lemma FoldDone(lists: map<Term, seq<DocId>>, before: map<Term, seq<DocId>>, ks: seq<Term>)
    requires forall t :: t in before <==> t in ks
    requires Folding(lists, before, ks, |ks|)
    ensures forall u :: u in lists ==> Lower(u) == u
    ensures forall u :: u in lists <==> exists t :: t in before && Lower(t) == u
    ensures forall u, d :: u in lists ==>
      (d in lists[u] <==> exists t :: t in before && Lower(t) == u && d in before[t])
  {
    assert ks[..|ks|] == ks;
    forall u | u in lists
      ensures Lower(u) == u
    {
      if u !in before || Lower(u) != u {
        var t :| t in ks && t != u && Lower(t) == u;
        LowerOfLower(t);
      }
    }
    forall u | exists t :: t in before && Lower(t) == u
      ensures u in lists
    {
      var t :| t in before && Lower(t) == u;
      if t == u {
        assert u in before && Lower(u) == u;
      } else {
        assert t in ks;
      }
    }
    forall u, d | u in lists
      ensures d in lists[u] <==> exists t :: t in before && Lower(t) == u && d in before[t]
    {
      GatheredMembers(ks, before, u, d);
      assert d in lists[u] <==> d in Members(lists[u]);
      if u in before && d in before[u] {
        assert Lower(u) == u;
      }
    }
  }

  /** The body of the case-folding loop for key i: moved to its lower-case form, merged, and deleted. */
  method FoldKey(index: Index, i: Term)
    requires index.Valid() && i in index.lists
    modifies index
    ensures index.Valid() && index.lists == FoldOne(old(index.lists), i)
    ensures |index.keys| <= old(|index.keys|)
  {
    var lower := Lower(i);
    if lower != i {
      if lower in index.lists {
        var merged := SortedSet(Members(index.lists[lower] + index.lists[i]));
        index.Put(lower, merged);
      } else {
        index.Put(lower, index.lists[i]);
      }
      index.Delete(i);
    }
  }

  /**
   * The case-folding loop over a snapshot of the keys: a key that changes
   * when lowered moves to its lower-case form, merged with the list already
   * there into the sorted set of both, and is deleted. Afterwards every key
   * is lower case and holds the ids of all the keys that fold to it.
   */
  method FoldCase(index: Index)
    requires index.Valid()
    modifies index
    ensures index.Valid()
    ensures forall u :: u in index.lists ==> Lower(u) == u
    ensures forall u :: u in index.lists <==> exists t :: t in old(index.lists) && Lower(t) == u
    ensures forall u, d :: u in index.lists ==>
      (d in index.lists[u] <==> exists t :: t in old(index.lists) && Lower(t) == u && d in old(index.lists)[t])
    ensures (forall t :: t in old(index.lists) ==> Increasing(old(index.lists)[t])) ==>
      forall u :: u in index.lists ==> Increasing(index.lists[u])
    ensures |index.keys| <= old(|index.keys|)
  {
    ghost var before := index.lists;
    var ks := index.keys;
    var j := 0;
    while j < |ks|
      invariant 0 <= j <= |ks| && index.Valid()
      invariant Folding(index.lists, before, ks, j)
      invariant |index.keys| <= |ks|
    {
      FoldStep(index.lists, before, ks, j);
      FoldKey(index, ks[j]);
      j := j + 1;
    }
    FoldDone(index.lists, before, ks);
  }
}
