/** Packing items into request groups under a size and a count budget (`_pack_by_chars`). */
module Packing {

  ghost function Size<T>(sizeOf: T -> nat, items: seq<T>): nat {
    if items == [] then 0 else sizeOf(items[0]) + Size(sizeOf, items[1..])
  }

  ghost function Flatten<T>(groups: seq<seq<T>>): seq<T> {
    if groups == [] then [] else groups[0] + Flatten(groups[1..])
  }

  /** A group that may be sent: within both budgets, or one item alone whatever its size. */
  ghost predicate Admissible<T>(sizeOf: T -> nat, maxSize: int, maxCount: int, group: seq<T>) {
    && group != []
    && (|group| == 1 || (|group| <= maxCount && Size(sizeOf, group) <= maxSize))
  }

  ghost predicate AllAdmissible<T>(sizeOf: T -> nat, maxSize: int, maxCount: int, groups: seq<seq<T>>) {
    forall g :: g in groups ==> Admissible(sizeOf, maxSize, maxCount, g)
  }

  /** A division of the items, in order, into groups that may be sent. */
  ghost predicate Partition<T>(sizeOf: T -> nat, maxSize: int, maxCount: int, groups: seq<seq<T>>, items: seq<T>) {
    Flatten(groups) == items && AllAdmissible(sizeOf, maxSize, maxCount, groups)
  }

  /** Group i could not have taken the first item of the next one. */
  ghost predicate FullAt<T>(sizeOf: T -> nat, maxSize: int, maxCount: int, groups: seq<seq<T>>, i: nat)
    requires i + 1 < |groups|
  {
    groups[i + 1] != [] && !Admissible(sizeOf, maxSize, maxCount, groups[i] + [groups[i + 1][0]])
  }

  /** No group could have taken the first item of the next one. */
  ghost predicate Full<T>(sizeOf: T -> nat, maxSize: int, maxCount: int, groups: seq<seq<T>>) {
    forall i: nat {:trigger FullAt(sizeOf, maxSize, maxCount, groups, i)} ::
      i + 1 < |groups| ==> FullAt(sizeOf, maxSize, maxCount, groups, i)
  }

  // ---------------------------------------------------------------- sizes

  lemma {:induction false} SizeConcat<T>(sizeOf: T -> nat, a: seq<T>, b: seq<T>)
    ensures Size(sizeOf, a + b) == Size(sizeOf, a) + Size(sizeOf, b)
  {
    if a == [] {
      assert a + b == b;
    } else {
      assert (a + b)[1..] == a[1..] + b;
      SizeConcat(sizeOf, a[1..], b);
    }
  }

  lemma SizePart<T>(sizeOf: T -> nat, items: seq<T>, i: nat, j: nat)
    requires i <= j <= |items|
    ensures Size(sizeOf, items[i..j]) <= Size(sizeOf, items)
  {
    assert items == items[..i] + items[i..j] + items[j..];
    SizeConcat(sizeOf, items[..i] + items[i..j], items[j..]);
    SizeConcat(sizeOf, items[..i], items[i..j]);
  }

  /** Every non-empty stretch of an admissible group is admissible. */
  lemma PartAdmissible<T>(sizeOf: T -> nat, maxSize: int, maxCount: int, group: seq<T>, i: nat, j: nat)
    requires Admissible(sizeOf, maxSize, maxCount, group) && i < j <= |group|
    ensures Admissible(sizeOf, maxSize, maxCount, group[i..j])
  {
    SizePart(sizeOf, group, i, j);
  }

  lemma {:induction false} FlattenAppend<T>(groups: seq<seq<T>>, g: seq<T>)
    ensures Flatten(groups + [g]) == Flatten(groups) + g
  {
    if groups == [] {
      assert [g][1..] == [];
      assert Flatten([g]) == g + Flatten([]);
    } else {
      assert (groups + [g])[1..] == groups[1..] + [g];
      FlattenAppend(groups[1..], g);
    }
  }

  // ---------------------------------------------------------------- the greedy packing

  ghost predicate Packed<T>(sizeOf: T -> nat, maxSize: int, maxCount: int, groups: seq<seq<T>>, cur: seq<T>, done: seq<T>) {
    && Flatten(groups) + cur == done
    && AllAdmissible(sizeOf, maxSize, maxCount, groups)
    && (cur != [] ==> Admissible(sizeOf, maxSize, maxCount, cur))
    && (cur == [] ==> groups == [])
    && Full(sizeOf, maxSize, maxCount, if cur == [] then groups else groups + [cur])
  }

  lemma TakeItem<T>(sizeOf: T -> nat, maxSize: int, maxCount: int, groups: seq<seq<T>>, cur: seq<T>, done: seq<T>, it: T)
    requires Packed(sizeOf, maxSize, maxCount, groups, cur, done)
    requires cur != [] ==> |cur| < maxCount && Size(sizeOf, cur) + sizeOf(it) <= maxSize
    ensures Packed(sizeOf, maxSize, maxCount, groups, cur + [it], done + [it])
  {
    SizeConcat(sizeOf, cur, [it]);
    assert Size(sizeOf, [it]) == sizeOf(it) + Size(sizeOf, []);
    assert Flatten(groups) + (cur + [it]) == done + [it];
    var before := if cur == [] then groups else groups + [cur];
    var after := groups + [cur + [it]];
    forall i: nat | i + 1 < |after|
      ensures FullAt(sizeOf, maxSize, maxCount, after, i)
    {
      assert FullAt(sizeOf, maxSize, maxCount, before, i);
    }
  }

  lemma CloseGroup<T>(sizeOf: T -> nat, maxSize: int, maxCount: int, groups: seq<seq<T>>, cur: seq<T>, done: seq<T>, it: T)
    requires Packed(sizeOf, maxSize, maxCount, groups, cur, done)
    requires cur != [] && (|cur| >= maxCount || Size(sizeOf, cur) + sizeOf(it) > maxSize)
    ensures Packed(sizeOf, maxSize, maxCount, groups + [cur], [it], done + [it])
  {
    FlattenAppend(groups, cur);
    SizeConcat(sizeOf, cur, [it]);
    assert Size(sizeOf, [it]) == sizeOf(it) + Size(sizeOf, []);
    assert Flatten(groups) + cur + [it] == done + [it];
    var before := groups + [cur];
    var after := groups + [cur] + [[it]];
    forall i: nat | i + 1 < |after|
      ensures FullAt(sizeOf, maxSize, maxCount, after, i)
    {
      if i + 1 < |before| {
        assert FullAt(sizeOf, maxSize, maxCount, before, i);
      } else {
        assert after[i] == cur && after[i + 1] == [it];
      }
    }
  }

  lemma NothingPacked<T>(sizeOf: T -> nat, maxSize: int, maxCount: int)
    ensures Packed(sizeOf, maxSize, maxCount, [], [], [])
  {
  }

  lemma LastGroup<T>(sizeOf: T -> nat, maxSize: int, maxCount: int, groups: seq<seq<T>>, cur: seq<T>, done: seq<T>)
    requires Packed(sizeOf, maxSize, maxCount, groups, cur, done)
    ensures var all := if cur == [] then groups else groups + [cur];
      Partition(sizeOf, maxSize, maxCount, all, done) && Full(sizeOf, maxSize, maxCount, all)
  {
    FlattenAppend(groups, cur);
  }

  lemma SizeOneMore<T>(sizeOf: T -> nat, cur: seq<T>, it: T)
    ensures Size(sizeOf, cur + [it]) == Size(sizeOf, cur) + sizeOf(it)
    ensures Size(sizeOf, [it]) == sizeOf(it)
  {
    SizeConcat(sizeOf, cur, [it]);
    assert Size(sizeOf, [it]) == sizeOf(it) + Size(sizeOf, []);
  }

  /** Packs the items whole and in order; an oversize item goes alone.  No packing has fewer groups. */
  method PackByChars<T>(items: seq<T>, sizeOf: T -> nat, maxSize: int, maxCount: int) returns (groups: seq<seq<T>>)
    ensures Partition(sizeOf, maxSize, maxCount, groups, items)
    ensures Full(sizeOf, maxSize, maxCount, groups)
    ensures forall other :: Partition(sizeOf, maxSize, maxCount, other, items) ==> |groups| <= |other|
  {
    hide Packed, Partition, Full, Size;
    groups := [];
    var cur: seq<T>, curSize := [], 0;
    NothingPacked(sizeOf, maxSize, maxCount);
    assert Size(sizeOf, cur) == 0 by { SizeEmpty(sizeOf); }
    for i := 0 to |items|
      invariant Packed(sizeOf, maxSize, maxCount, groups, cur, items[..i])
      invariant curSize == Size(sizeOf, cur)
    {
      var it := items[i];
      var size := sizeOf(it);
      assert items[..i + 1] == items[..i] + [it];
      SizeOneMore(sizeOf, cur, it);
      if cur != [] && (|cur| >= maxCount || curSize + size > maxSize) {
        CloseGroup(sizeOf, maxSize, maxCount, groups, cur, items[..i], it);
        groups := groups + [cur];
        cur, curSize := [], 0;
        assert cur + [it] == [it];
      } else {
        TakeItem(sizeOf, maxSize, maxCount, groups, cur, items[..i], it);
      }
      cur := cur + [it];
      curSize := curSize + size;
    }
    assert items[..|items|] == items;
    LastGroup(sizeOf, maxSize, maxCount, groups, cur, items);
    if cur != [] {
      groups := groups + [cur];
    }
    assert items[0..] == items;
    forall other | Partition(sizeOf, maxSize, maxCount, other, items)
      ensures |groups| <= |other|
    {
      FullIsFewest(sizeOf, maxSize, maxCount, items, groups, 0, other, 0);
    }
  }

  lemma SizeEmpty<T>(sizeOf: T -> nat)
    ensures Size(sizeOf, []) == 0
  {
  }

  // ---------------------------------------------------------------- no packing has fewer groups

  lemma FirstGroup<T>(groups: seq<seq<T>>, items: seq<T>, from: nat)
    requires from <= |items| && Flatten(groups) == items[from..] && groups != []
    ensures from + |groups[0]| <= |items|
    ensures groups[0] == items[from..from + |groups[0]|]
    ensures Flatten(groups[1..]) == items[from + |groups[0]|..]
  {
  }

  lemma FullTail<T>(sizeOf: T -> nat, maxSize: int, maxCount: int, groups: seq<seq<T>>)
    requires Full(sizeOf, maxSize, maxCount, groups) && groups != []
    ensures Full(sizeOf, maxSize, maxCount, groups[1..])
  {
    var rest := groups[1..];
    forall i: nat | i + 1 < |rest|
      ensures FullAt(sizeOf, maxSize, maxCount, rest, i)
    {
      assert FullAt(sizeOf, maxSize, maxCount, groups, i + 1);
    }
  }

  /** A full packing of a later part of the items needs no more groups than any packing of more of them. */
  lemma {:induction false} FullIsFewest<T>(sizeOf: T -> nat, maxSize: int, maxCount: int, items: seq<T>,
                                           full: seq<seq<T>>, b: nat, other: seq<seq<T>>, a: nat)
    requires a <= b <= |items|
    requires Partition(sizeOf, maxSize, maxCount, full, items[b..]) && Full(sizeOf, maxSize, maxCount, full)
    requires Partition(sizeOf, maxSize, maxCount, other, items[a..])
    ensures |full| <= |other|
    decreases |other|, |full|
  {
    if full != [] {
      FirstGroup(full, items, b);
      assert full[0] in full;
      assert other != [];
      FirstGroup(other, items, a);
      assert other[0] in other;
      var c := a + |other[0]|;
      var d := b + |full[0]|;
      assert AllAdmissible(sizeOf, maxSize, maxCount, other[1..]);
      if b >= c {
        FullIsFewest(sizeOf, maxSize, maxCount, items, full, b, other[1..], c);
      } else {
        if d < c {
          assert full[1..] != [] && FullAt(sizeOf, maxSize, maxCount, full, 0);
          FirstGroup(full[1..], items, d);
          assert full[1] in full;
          assert full[0] + [full[1][0]] == items[b..d + 1];
          assert items[b..d + 1] == other[0][b - a..d + 1 - a];
          PartAdmissible(sizeOf, maxSize, maxCount, other[0], b - a, d + 1 - a);
          assert false;
        }
        assert AllAdmissible(sizeOf, maxSize, maxCount, full[1..]);
        FullTail(sizeOf, maxSize, maxCount, full);
        FullIsFewest(sizeOf, maxSize, maxCount, items, full[1..], d, other[1..], c);
      }
    }
  }
}
