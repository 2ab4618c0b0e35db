// The list edits the components perform: JavaScript's `splice` used by the
// drag-and-drop reorder, and the `filter` / `map` by position used by the
// delete, edit and description handlers.
module ListOps {

  /** `s.splice(i, 1)` on a copy: the list without position `i`. */
  function RemoveAt<T>(s: seq<T>, i: nat): (r: seq<T>)
    requires i < |s|
    ensures |r| == |s| - 1
    ensures forall k :: 0 <= k < i ==> r[k] == s[k]
    ensures forall k :: i <= k < |r| ==> r[k] == s[k + 1]
  {
    s[..i] + s[i + 1..]
  }

  /** `s.splice(i, 0, x)` on a copy, for a position inside the list or just past its end. */
  function InsertAt<T>(s: seq<T>, i: nat, x: T): (r: seq<T>)
    requires i <= |s|
    ensures |r| == |s| + 1 && r[i] == x
    ensures forall k :: 0 <= k < i ==> r[k] == s[k]
    ensures forall k :: i < k < |r| ==> r[k] == s[k - 1]
  {
    s[..i] + [x] + s[i..]
  }

  /** Taking back out what was just inserted gives the original list. */
  lemma RemoveInsert<T>(s: seq<T>, i: nat, x: T)
    requires i <= |s|
    ensures RemoveAt(InsertAt(s, i, x), i) == s
  {
  }

  /** Removing an element changes the multiset by exactly that element. */
  lemma RemoveAtMultiset<T>(s: seq<T>, i: nat)
    requires i < |s|
    ensures multiset(RemoveAt(s, i)) + multiset{s[i]} == multiset(s)
  {
    assert s == s[..i] + [s[i]] + s[i + 1..];
  }

  /** Inserting an element changes the multiset by exactly that element. */
  lemma InsertAtMultiset<T>(s: seq<T>, i: nat, x: T)
    requires i <= |s|
    ensures multiset(InsertAt(s, i, x)) == multiset(s) + multiset{x}
  {
    assert s == s[..i] + s[i..];
  }

  /** No value occurs twice. */
  predicate NoDuplicates<T(==)>(s: seq<T>)
  {
    forall i, j :: 0 <= i < j < |s| ==> s[i] != s[j]
  }

  /** Removing a position keeps a duplicate-free list duplicate-free. */
  lemma RemoveAtKeepsNoDuplicates<T>(s: seq<T>, i: nat)
    requires i < |s| && NoDuplicates(s)
    ensures NoDuplicates(RemoveAt(s, i))
  {
  }

  /**
   * `s.filter((_, j) => j !== index)`, walking the list as `filter` does;
   * `offset` is the position of `s[0]` in the list being filtered.
   */
  function FilterOutFrom<T>(s: seq<T>, index: int, offset: int): seq<T>
    decreases |s|
  {
    if s == [] then []
    else (if offset == index then [] else [s[0]]) + FilterOutFrom(s[1..], index, offset + 1)
  }

  lemma {:induction false} FilterOutFromRemoves<T>(s: seq<T>, index: int, offset: int)
    ensures offset <= index < offset + |s| ==>
              FilterOutFrom(s, index, offset) == RemoveAt(s, index - offset)
    ensures !(offset <= index < offset + |s|) ==> FilterOutFrom(s, index, offset) == s
    decreases |s|
  {
    if s != [] {
      FilterOutFromRemoves(s[1..], index, offset + 1);
      if offset == index {
        assert RemoveAt(s, 0) == s[1..];
      } else if offset < index < offset + |s| {
        var j := index - offset;
        assert RemoveAt(s, j) == [s[0]] + RemoveAt(s[1..], j - 1);
      } else {
        assert s == [s[0]] + s[1..];
      }
    }
  }

  /**
   * The list filtered by position `index`: exactly that position is gone
   * when it exists, and nothing changes when it does not.
   */
  function FilterOut<T>(s: seq<T>, index: int): (r: seq<T>)
    ensures 0 <= index < |s| ==> r == RemoveAt(s, index)
    ensures !(0 <= index < |s|) ==> r == s
  {
    FilterOutFromRemoves(s, index, 0);
    FilterOutFrom(s, index, 0)
  }

  /**
   * `s.map((x, j) => j === index ? v : x)`, walking the list as `map` does;
   * `offset` is the position of `s[0]` in the list being mapped.
   */
  function MapReplaceFrom<T>(s: seq<T>, index: int, v: T, offset: int): seq<T>
    decreases |s|
  {
    if s == [] then []
    else [if offset == index then v else s[0]] + MapReplaceFrom(s[1..], index, v, offset + 1)
  }

  lemma {:induction false} MapReplaceFromUpdates<T>(s: seq<T>, index: int, v: T, offset: int)
    ensures offset <= index < offset + |s| ==>
              MapReplaceFrom(s, index, v, offset) == s[index - offset := v]
    ensures !(offset <= index < offset + |s|) ==> MapReplaceFrom(s, index, v, offset) == s
    decreases |s|
  {
    if s != [] {
      MapReplaceFromUpdates(s[1..], index, v, offset + 1);
      if offset == index {
        assert s[0 := v] == [v] + s[1..];
      } else if offset < index < offset + |s| {
        var j := index - offset;
        assert s[j := v] == [s[0]] + s[1..][j - 1 := v];
      } else {
        assert s == [s[0]] + s[1..];
      }
    }
  }

  /**
   * The list mapped by position `index`: exactly that position holds `v`
   * when it exists, and nothing changes when it does not.
   */
  function MapReplace<T>(s: seq<T>, index: int, v: T): (r: seq<T>)
    ensures 0 <= index < |s| ==> r == s[index := v]
    ensures !(0 <= index < |s|) ==> r == s
  {
    MapReplaceFromUpdates(s, index, v, 0);
    MapReplaceFrom(s, index, v, 0)
  }
}
