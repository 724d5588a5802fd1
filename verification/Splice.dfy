/** The in-place rewrite of a configuration text: edits are applied from the back, so that the positions of the
    ones still to come stay valid. */
module Splice {
  import opened Sorting
  import opened Wrappers

  /** Replaces source[begin..end] by the text. */
  datatype Edit = Edit(begin: nat, end: nat, text: string)

  predicate Forward(edits: seq<Edit>) {
    forall i | 0 <= i < |edits| :: edits[i].begin <= edits[i].end
  }

  // ---------- what the rewrite means ----------

  /** Ascending edits that lie behind `from`, one after the other. */
  predicate Chain(source: string, edits: seq<Edit>, from: nat)
    decreases |edits|
  {
    if edits == [] then from <= |source|
    else from <= edits[0].begin <= edits[0].end && Chain(source, edits[1..], edits[0].end)
  }

  /** All replacements at once: untouched gaps of the source and replacement texts in turn. */
  function Substitute(source: string, edits: seq<Edit>, from: nat): string
    requires Chain(source, edits, from)
    decreases |edits|
  {
    ChainFits(source, edits, from);
    if edits == [] then source[from..]
    else source[from..edits[0].begin] + edits[0].text + Substitute(source, edits[1..], edits[0].end)
  }

  lemma {:induction false} ChainFits(source: string, edits: seq<Edit>, from: nat)
    requires Chain(source, edits, from)
    ensures from <= |source| && (edits != [] ==> edits[0].begin <= |source|)
    decreases |edits|
  {
    if edits != [] {
      ChainFits(source, edits[1..], edits[0].end);
    }
  }

  /** What an edit adds to the length. */
  function Added(e: Edit): int {
    |e.text| - (e.end - e.begin)
  }

  lemma {:induction false} SubstituteLength(source: string, edits: seq<Edit>, from: nat)
    requires Chain(source, edits, from)
    ensures |Substitute(source, edits, from)| == |source| - from + Sum(edits, Added)
    decreases |edits|
  {
    ChainFits(source, edits, from);
    if edits != [] {
      SubstituteLength(source, edits[1..], edits[0].end);
    }
  }

  lemma SubstituteFrom(source: string, edits: seq<Edit>, from: nat, later: nat)
    requires from <= later && Chain(source, edits, later)
    ensures Chain(source, edits, from) && later <= |source|
    ensures Substitute(source, edits, from) == source[from..later] + Substitute(source, edits, later)
  {
    ChainFits(source, edits, later);
    if edits == [] {
      assert source[from..] == source[from..later] + source[later..];
    } else {
      var b, rest := edits[0].begin, Substitute(source, edits[1..], edits[0].end);
      Regroup(source[from..later], source[later..b], edits[0].text, rest);
      assert source[from..b] == source[from..later] + source[later..b];
      hide Substitute, Chain;
    }
  }

  lemma Regroup(a: string, b: string, c: string, d: string)
    ensures (a + b) + c + d == a + (b + c + d)
  {
  }

  // ---------- order of application ----------

  /** Later starts come first. */
  function FromBack(e: Edit): int {
    0 - e.begin
  }

  function Order(edits: seq<Edit>): seq<Edit> {
    Sort(edits, FromBack)
  }

  // ---------- acceptance ----------

  function Reverse(edits: seq<Edit>): (r: seq<Edit>)
    ensures |r| == |edits| && forall i | 0 <= i < |r| :: r[i] == edits[|edits| - 1 - i]
  {
    if edits == [] then [] else Reverse(edits[1..]) + [edits[0]]
  }

  lemma ReverseSnoc(edits: seq<Edit>, e: Edit)
    ensures Reverse(edits + [e]) == [e] + Reverse(edits)
  {
  }

  /** Each edit of the descending list ends where the one before it begins, at the latest. */
  ghost predicate Stacked(sorted: seq<Edit>, size: nat) {
    && (sorted != [] ==> sorted[0].end <= size)
    && forall i, j | 0 <= i < j < |sorted| && j == i + 1 :: sorted[j].end <= sorted[i].begin
  }

  predicate Overlap(a: Edit, b: Edit) {
    a.begin < b.end && b.begin < a.end
  }

  /** Accepted exactly when every edit lies in the source and no two of them overlap. */
  lemma StackedMeansDisjoint(sorted: seq<Edit>, size: nat)
    requires Ascending(sorted, FromBack) && Forward(sorted) && Distinct(sorted, FromBack)
    ensures Stacked(sorted, size) <==>
      && (forall i | 0 <= i < |sorted| :: sorted[i].end <= size)
      && (forall i, j | 0 <= i < j < |sorted| :: !Overlap(sorted[i], sorted[j]))
  {
    if Stacked(sorted, size) {
      forall i | 0 <= i < |sorted| ensures sorted[i].end <= size {
        if i > 0 {
          StackedBelow(sorted, size, 0, i);
        }
        assert sorted[0].end <= size;
      }
      forall i, j | 0 <= i < j < |sorted| ensures !Overlap(sorted[i], sorted[j]) {
        StackedBelow(sorted, size, i, j);
      }
    } else {
      if sorted == [] || sorted[0].end <= size {
        var i: nat, j :| i < j < |sorted| && j == i + 1 && sorted[j].end > sorted[i].begin;
        assert sorted[j].begin < sorted[i].begin;
        assert Overlap(sorted[i], sorted[j]);
      }
    }
  }

  lemma {:induction false} StackedBelow(sorted: seq<Edit>, size: nat, i: nat, j: nat)
    requires Forward(sorted) && Stacked(sorted, size) && i < j < |sorted|
    ensures sorted[j].end <= sorted[i].begin <= sorted[i].end <= size
    decreases j
  {
    assert sorted[0].end <= size;
    if i < j - 1 {
      StackedBelow(sorted, size, i, j - 1);
    } else if i > 0 {
      StackedBelow(sorted, size, 0, i);
    }
  }

  /** The overlap test tolerates zero-length edits of equal start: the rewrite accepts them, and both texts are
      then inserted at the same place. */
  lemma EqualStartsSlipThrough(source: string, e: Edit, edits: seq<Edit>)
    requires e.begin == e.end <= |source| && |edits| == 2 && edits[0] == e && edits[1] == e
    ensures Stacked(Order(edits), |source|) && Chain(source, Reverse(Order(edits)), 0)
    ensures Substitute(source, Reverse(Order(edits)), 0) == source[..e.begin] + e.text + e.text + source[e.begin..]
  {
    hide Substitute, Chain, Order, Reverse;
    EqualEditsInOrder(edits, e);
    TwiceTheSame(source, e, edits);
  }

  lemma TwiceTheSame(source: string, e: Edit, edits: seq<Edit>)
    requires e.begin == e.end <= |source| && |edits| == 2 && edits[0] == e && edits[1] == e
    ensures Stacked(edits, |source|) && Chain(source, edits, 0)
    ensures Substitute(source, edits, 0) == source[..e.begin] + e.text + e.text + source[e.begin..]
  {
    var one, none := edits[1..], edits[2..];
    NoEdits(source, none, e.begin);
    assert [e] + none == one && [e] + one == edits;
    SubstituteOne(source, e, none, e.begin);
    SubstituteOne(source, e, one, 0);
    hide Substitute, Chain;
    assert source[e.begin..e.begin] == "";
  }

  lemma EqualEditsInOrder(edits: seq<Edit>, e: Edit)
    requires |edits| == 2 && edits[0] == e && edits[1] == e
    ensures Order(edits) == edits && Reverse(edits) == edits
  {
    var one := edits[..1];
    SortOne(one, e);
    InsertEqual(one, e);
    assert edits == one + [e];
    hide Sort, Insert;
  }

  lemma SortOne(one: seq<Edit>, e: Edit)
    requires |one| == 1 && one[0] == e
    ensures Sort(one, FromBack) == one
  {
    assert one[..0] == [] && one == [e];
  }

  lemma InsertEqual(one: seq<Edit>, e: Edit)
    requires |one| == 1 && one[0] == e
    ensures Insert(one, e, FromBack) == one + [e]
  {
    assert one[1..] == [] && one == [e];
  }

  lemma NoEdits(source: string, edits: seq<Edit>, from: nat)
    requires edits == [] && from <= |source|
    ensures Chain(source, edits, from) && Substitute(source, edits, from) == source[from..]
  {
  }

  lemma SubstituteOne(source: string, e: Edit, edits: seq<Edit>, from: nat)
    requires from <= e.begin <= e.end && Chain(source, edits, e.end)
    ensures Chain(source, [e] + edits, from) && e.begin <= |source|
    ensures Substitute(source, [e] + edits, from) == source[from..e.begin] + e.text + Substitute(source, edits, e.end)
  {
    assert ([e] + edits)[1..] == edits;
    ChainFits(source, [e] + edits, from);
  }

  // ---------- the rewrite ----------

  /** One replacement behind which everything is final. */
  lemma ReplaceOne(source: string, done: seq<Edit>, e: Edit, last: nat, output: string)
    requires e.begin <= e.end <= last && Chain(source, done, last) && last <= |source|
    requires output == source[..last] + Substitute(source, done, last)
    ensures Chain(source, [e] + done, e.begin)
    ensures output[..e.begin] + e.text + output[e.end..] == source[..e.begin] + Substitute(source, [e] + done, e.begin)
  {
    var tail := Substitute(source, done, last);
    assert ([e] + done)[1..] == done;
    SubstituteFrom(source, done, e.end, last);
    assert output[..e.begin] == source[..e.begin];
    assert output[e.end..] == source[e.end..last] + tail;
    assert source[e.begin..e.begin] == "";
  }

  lemma SortForward(edits: seq<Edit>)
    requires Forward(edits)
    ensures Forward(Order(edits))
  {
    SortSorts(edits, FromBack);
    forall i | 0 <= i < |Order(edits)| ensures Order(edits)[i].begin <= Order(edits)[i].end {
      assert Order(edits)[i] in multiset(edits);
    }
  }

  /** The first k edits are applied: behind `last` the output is final. */
  ghost predicate Applied(source: string, sorted: seq<Edit>, k: nat, output: string, last: nat) {
    && k <= |sorted| && last == (if k == 0 then |source| else sorted[k - 1].begin) && last <= |source|
    && Stacked(sorted[..k], |source|) && Chain(source, Reverse(sorted[..k]), last)
    && output == source[..last] + Substitute(source, Reverse(sorted[..k]), last)
  }

  lemma AppliedFirst(source: string, sorted: seq<Edit>)
    ensures Applied(source, sorted, 0, source, |source|)
  {
    NoEdits(source, Reverse(sorted[..0]), |source|);
  }

  lemma AppliedNext(source: string, sorted: seq<Edit>, k: nat, output: string, last: nat)
    requires Forward(sorted) && k < |sorted| && Applied(source, sorted, k, output, last)
    ensures sorted[k].end > last ==> !Stacked(sorted, |source|)
    ensures sorted[k].end <= last ==> sorted[k].begin <= sorted[k].end <= |output|
    ensures sorted[k].end <= last ==>
      Applied(source, sorted, k + 1, output[..sorted[k].begin] + sorted[k].text + output[sorted[k].end..], sorted[k].begin)
  {
    hide Substitute, Chain, Reverse;
    var e := sorted[k];
    assert sorted[..k + 1] == sorted[..k] + [e];
    if e.end <= last {
      ReverseSnoc(sorted[..k], e);
      ReplaceOne(source, Reverse(sorted[..k]), e, last, output);
    }
  }

  lemma AppliedAll(source: string, sorted: seq<Edit>, output: string, last: nat)
    requires Applied(source, sorted, |sorted|, output, last)
    ensures Stacked(sorted, |source|) && Chain(source, Reverse(sorted), 0)
    ensures output == Substitute(source, Reverse(sorted), 0)
  {
    assert sorted[..|sorted|] == sorted;
    SubstituteFrom(source, Reverse(sorted), 0, last);
  }

  /** Sorts the edits, then replaces from the back; `None` when an edit reaches into the one behind it. */
  method Rewrite(source: string, edits: seq<Edit>) returns (r: Option<string>)
    requires Forward(edits)
    ensures r.Some? <==> Stacked(Order(edits), |source|)
    ensures r.Some? ==> Chain(source, Reverse(Order(edits)), 0)
    ensures r.Some? ==> r.value == Substitute(source, Reverse(Order(edits)), 0)
  {
    hide Substitute, Chain, Order, Reverse, Stacked, Applied;
    var sorted := Order(edits);
    SortForward(edits);
    var output, last: nat := source, |source|;
    AppliedFirst(source, sorted);
    for k := 0 to |sorted|
      invariant Applied(source, sorted, k, output, last)
    {
      var edit := sorted[k];
      AppliedNext(source, sorted, k, output, last);
      if edit.end > last {
        return None;
      }
      output := output[..edit.begin] + edit.text + output[edit.end..];
      last := edit.begin;
    }
    AppliedAll(source, sorted, output, last);
    r := Some(output);
  }

  lemma {:induction false} ReverseGrowth(edits: seq<Edit>)
    ensures Sum(Reverse(edits), Added) == Sum(edits, Added)
  {
    if edits != [] {
      ReverseGrowth(edits[1..]);
      SumSnoc(Reverse(edits[1..]), edits[0], Added);
      assert edits == [edits[0]] + edits[1..];
    }
  }

  lemma DisjointIsPermutationInvariant(a: seq<Edit>, b: seq<Edit>, size: nat)
    requires multiset(a) == multiset(b) && Distinct(a, FromBack)
    requires (forall i | 0 <= i < |a| :: a[i].end <= size) && forall i, j | 0 <= i < j < |a| :: !Overlap(a[i], a[j])
    ensures (forall i | 0 <= i < |b| :: b[i].end <= size) && forall i, j | 0 <= i < j < |b| :: !Overlap(b[i], b[j])
  {
    DistinctSurvives(a, b, FromBack);
    forall i | 0 <= i < |b| ensures b[i].end <= size {
      assert b[i] in multiset(a);
    }
    forall i, j | 0 <= i < j < |b| ensures !Overlap(b[i], b[j]) {
      assert b[i] in multiset(a) && b[j] in multiset(a);
      var p: nat :| p < |a| && a[p] == b[i];
      var q: nat :| q < |a| && a[q] == b[j];
      assert p != q;
    }
  }

  /** For edits with distinct starts, collected in any order: the rewrite goes through exactly when all edits lie
      in the source and no two overlap; its result depends only on the set of edits, and its length is that of
      the source plus what each edit adds. */
  lemma RewriteIsSimultaneous(source: string, edits: seq<Edit>, other: seq<Edit>)
    requires Forward(edits) && Distinct(edits, FromBack) && multiset(edits) == multiset(other)
    ensures Order(edits) == Order(other)
    ensures Stacked(Order(edits), |source|) <==>
      && (forall i | 0 <= i < |edits| :: edits[i].end <= |source|)
      && (forall i, j | 0 <= i < j < |edits| :: !Overlap(edits[i], edits[j]))
    ensures Chain(source, Reverse(Order(edits)), 0) ==>
      |Substitute(source, Reverse(Order(edits)), 0)| == |source| + Sum(edits, Added)
  {
    var sorted := Order(edits);
    SortIsCanonical(edits, other, FromBack);
    SortSorts(edits, FromBack);
    SortForward(edits);
    DistinctSurvives(edits, sorted, FromBack);
    StackedMeansDisjoint(sorted, |source|);
    if Stacked(sorted, |source|) {
      DisjointIsPermutationInvariant(sorted, edits, |source|);
    }
    if (forall i | 0 <= i < |edits| :: edits[i].end <= |source|) &&
       (forall i, j | 0 <= i < j < |edits| :: !Overlap(edits[i], edits[j])) {
      DisjointIsPermutationInvariant(edits, sorted, |source|);
    }
    SortSum(edits, FromBack, Added);
    ReverseGrowth(sorted);
    if Chain(source, Reverse(sorted), 0) {
      SubstituteLength(source, Reverse(sorted), 0);
    }
  }
}
