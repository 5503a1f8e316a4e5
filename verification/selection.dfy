/**
 * Deleting the selected records of a page: both pages keep
 * `[v for i, v in enumerate(records) if i not in indices]`, where the
 * indices were parsed from the selected option labels.
 */
module Selection {
  import opened Labels

  /** What a press of "Apagar Selecionados" did. */
  datatype DeleteOutcome = NothingSelected | Deleted

  /**
   * The comprehension `[v for i, v in enumerate(s) if i not in indices]`,
   * written over prefixes so that it grows the way the enumeration does.
   */
  function Filtered<T>(s: seq<T>, indices: seq<int>): seq<T> {
    if s == [] then []
    else
      var n := |s| - 1;
      Filtered(s[..n], indices) + (if n in indices then [] else [s[n]])
  }

  /** The positions below `n` that `indices` does not name, in ascending order. */
  function Kept(n: nat, indices: seq<int>): seq<nat> {
    if n == 0 then [] else Kept(n - 1, indices) + (if n - 1 in indices then [] else [n - 1])
  }

  /** The positions below `n` that `indices` names, each once. */
  function Named(n: nat, indices: seq<int>): set<int> {
    set i | i in indices && 0 <= i < n
  }

  /**
   * The list comprehension as the page runs it: one pass over the
   * records, keeping each one whose position was not selected.
   */
  method Remove<T>(s: seq<T>, indices: seq<int>) returns (r: seq<T>)
    ensures r == Filtered(s, indices)
  {
    r := [];
    var i := 0;
    while i < |s|
      invariant 0 <= i <= |s|
      invariant r == Filtered(s[..i], indices)
    {
      assert s[..i + 1][..i] == s[..i];
      if i !in indices {
        r := r + [s[i]];
      }
      i := i + 1;
    }
    assert s[..|s|] == s;
  }

  /**
   * `Kept` lists exactly the unselected positions below `n`, strictly
   * ascending.
   */
  lemma {:induction false} KeptExactly(n: nat, indices: seq<int>)
    ensures forall p: nat :: p in Kept(n, indices) <==> p < n && p !in indices
    ensures forall j, k :: 0 <= j < k < |Kept(n, indices)| ==> Kept(n, indices)[j] < Kept(n, indices)[k]
  {
    if n > 0 {
      KeptExactly(n - 1, indices);
      var k := Kept(n - 1, indices);
      forall j | 0 <= j < |k| ensures k[j] < n - 1 {
        assert k[j] in k;
      }
    }
  }

  /**
   * The comprehension keeps the records at the positions `Kept` lists, and
   * only those: the result is exactly the unselected records, in their
   * original relative order.
   */
  lemma {:induction false} FilteredIsKept<T>(s: seq<T>, indices: seq<int>)
    ensures |Filtered(s, indices)| == |Kept(|s|, indices)|
    ensures forall j :: 0 <= j < |Kept(|s|, indices)| ==>
      Kept(|s|, indices)[j] < |s| && Filtered(s, indices)[j] == s[Kept(|s|, indices)[j]]
  {
    KeptExactly(|s|, indices);
    if s != [] {
      var n := |s| - 1;
      FilteredIsKept(s[..n], indices);
      KeptExactly(n, indices);
      var k := Kept(n, indices);
      forall j | 0 <= j < |k| ensures k[j] < n {
        assert k[j] in k;
      }
    }
  }

  /** Each unselected position is named once by `Named` or kept, never both. */
  lemma {:induction false} KeptLength(n: nat, indices: seq<int>)
    ensures |Kept(n, indices)| == n - |Named(n, indices)|
  {
    if n > 0 {
      KeptLength(n - 1, indices);
      if n - 1 in indices {
        assert Named(n, indices) == Named(n - 1, indices) + {n - 1};
      } else {
        assert Named(n, indices) == Named(n - 1, indices);
      }
    } else {
      assert Named(n, indices) == {};
    }
  }

  /**
   * The result is shorter by the number of distinct in-range positions
   * selected: repeated or out-of-range indices remove nothing more.
   */
  lemma FilteredLength<T>(s: seq<T>, indices: seq<int>)
    ensures |Filtered(s, indices)| == |s| - |Named(|s|, indices)|
  {
    FilteredIsKept(s, indices);
    KeptLength(|s|, indices);
  }

  /** A sequence without repetitions has as many elements as its set. */
  lemma {:induction false} DistinctCardinality(indices: seq<int>)
    requires forall j, k :: 0 <= j < k < |indices| ==> indices[j] != indices[k]
    ensures |set i | i in indices| == |indices|
  {
    if indices != [] {
      var rest := indices[1..];
      DistinctCardinality(rest);
      assert (set i | i in indices) == (set i | i in rest) + {indices[0]};
      assert indices[0] !in rest;
    }
  }

  /** With distinct in-range indices, exactly `|indices|` records go. */
  lemma FilteredLengthDistinct<T>(s: seq<T>, indices: seq<int>)
    requires forall k :: 0 <= k < |indices| ==> 0 <= indices[k] < |s|
    requires forall j, k :: 0 <= j < k < |indices| ==> indices[j] != indices[k]
    ensures |Filtered(s, indices)| == |s| - |indices|
  {
    FilteredLength(s, indices);
    DistinctCardinality(indices);
    assert Named(|s|, indices) == set i | i in indices;
  }

  /** Nothing selected: the records are left as they are. */
  lemma {:induction false} FilteredNothing<T>(s: seq<T>)
    ensures Filtered(s, []) == s
  {
    if s != [] {
      FilteredNothing(s[..|s| - 1]);
    }
  }

  /**
   * Only which positions are named matters, not their order or how often
   * each one is repeated.
   */
  lemma {:induction false} FilteredSameNames<T>(s: seq<T>, a: seq<int>, b: seq<int>)
    requires forall i :: i in a <==> i in b
    ensures Filtered(s, a) == Filtered(s, b)
  {
    if s != [] {
      FilteredSameNames(s[..|s| - 1], a, b);
    }
  }

  /**
   * The reference meaning of a deletion, stated on the labels the user
   * saw: keep each record whose option label was not selected.
   */
  function KeepUnselected<T>(s: seq<T>, options: seq<string>, selected: seq<string>): seq<T>
    requires |options| == |s|
  {
    if s == [] then []
    else
      var n := |s| - 1;
      KeepUnselected(s[..n], options[..n], selected) + (if options[n] in selected then [] else [s[n]])
  }

  /**
   * A deletion only removes records, so a property every record had is
   * one every remaining record has.
   */
  lemma {:induction false} KeepUnselectedKeeps<T>(s: seq<T>, options: seq<string>, selected: seq<string>, P: T -> bool)
    requires |options| == |s|
    requires forall k :: 0 <= k < |s| ==> P(s[k])
    ensures forall k :: 0 <= k < |KeepUnselected(s, options, selected)| ==> P(KeepUnselected(s, options, selected)[k])
  {
    if s != [] {
      var n := |s| - 1;
      KeepUnselectedKeeps(s[..n], options[..n], selected, P);
    }
  }

  /**
   * Filtering by the parsed indices is filtering by label whenever a
   * position is among the indices exactly when its label was selected.
   */
  lemma {:induction false} FilteredByLabel<T>(s: seq<T>, options: seq<string>, selected: seq<string>, indices: seq<int>)
    requires |options| == |s|
    requires forall p :: 0 <= p < |s| ==> (p in indices <==> options[p] in selected)
    ensures Filtered(s, indices) == KeepUnselected(s, options, selected)
  {
    if s != [] {
      var n := |s| - 1;
      FilteredByLabel(s[..n], options[..n], selected, indices);
    }
  }

  /**
   * Deleting a selection drawn from numbered option labels: parsing
   * succeeds and the comprehension keeps exactly the records whose label
   * was not selected.
   */
  lemma DeleteBySelection<T>(s: seq<T>, options: seq<string>, selected: seq<string>)
    requires |options| == |s| && Numbered(options)
    requires forall l :: l in selected ==> l in options
    ensures ParseIndices(selected).Some?
    ensures Filtered(s, ParseIndices(selected).value) == KeepUnselected(s, options, selected)
  {
    SelectionIndices(options, selected);
    FilteredByLabel(s, options, selected, ParseIndices(selected).value);
  }

  /**
   * Selecting `m` distinct labels out of numbered options deletes exactly
   * `m` records.
   */
  lemma DeleteLength<T>(s: seq<T>, options: seq<string>, selected: seq<string>)
    requires |options| == |s| && Numbered(options)
    requires forall l :: l in selected ==> l in options
    requires forall j, k :: 0 <= j < k < |selected| ==> selected[j] != selected[k]
    ensures |KeepUnselected(s, options, selected)| == |s| - |selected|
  {
    DeleteBySelection(s, options, selected);
    SelectionIndices(options, selected);
    var idx := ParseIndices(selected).value;
    forall j, k | 0 <= j < k < |idx| ensures idx[j] != idx[k] {
      assert options[idx[j]] == selected[j] && options[idx[k]] == selected[k];
    }
    FilteredLengthDistinct(s, idx);
  }
}
