/** Batched classification: answers are mapped back by their own index (epiproc/ingest/categorise.py).

    The model call is a function from a batch of descriptions to its reply. */
module Categorise {
  import opened Common

  datatype Answer = Answer(index: Option<int>, category: Option<string>, variety: Option<string>)

  /** A parsed reply, or the failure of the call, its truncation or its parsing. */
  datatype Reply = Items(answers: seq<Answer>) | Raised

  datatype Label = Label(category: string, variety: string)

  const OTHER_CATEGORY := "Other"

  const BATCH := 25

  /** `(x or fallback).strip() or fallback`. */
  function Cleaned(x: Option<string>, fallback: string): string {
    var s := Strip(if x.None? || x.value == "" then fallback else x.value);
    if s == "" then fallback else s
  }

  function LabelOf(g: Answer): Label {
    var category := Cleaned(g.category, OTHER_CATEGORY);
    Label(category, Cleaned(g.variety, category))
  }

  predicate ValidIndex(g: Answer, n: nat) {
    g.index.Some? && 1 <= g.index.value <= n
  }

  /** by_idx: answers by valid index, the last one winning. */
  function ByIndex(answers: seq<Answer>, n: nat): map<int, Answer> {
    if answers == [] then map[]
    else
      var g := answers[|answers| - 1];
      var before := ByIndex(answers[..|answers| - 1], n);
      if ValidIndex(g, n) then before[g.index.value := g] else before
  }

  /** One batch: its labels, or None when it raises. */
  function Classified(n: nat, reply: Reply): Option<seq<Label>> {
    if reply.Raised? then None
    else
      IndicesInRange(reply.answers, n);
      var byIdx := ByIndex(reply.answers, n);
      if |byIdx| != n then None
      else
        AllCovered(byIdx.Keys, n);
        Some(seq(n, i requires 0 <= i < n => LabelOf(byIdx[i + 1])))
  }

  // ---- Acceptance by count ----

  /** 1..n. */
  function Indices(n: nat): set<int> {
    if n == 0 then {} else Indices(n - 1) + {n}
  }

  lemma {:induction false} IndicesCount(n: nat)
    ensures |Indices(n)| == n
    ensures forall i :: i in Indices(n) <==> 1 <= i <= n
  {
    if n > 0 {
      IndicesCount(n - 1);
    }
  }

  /** Pigeonhole: n different indices in 1..n are all of them. */
  lemma AllCovered(keys: set<int>, n: nat)
    requires keys <= Indices(n) && |keys| == n
    ensures keys == Indices(n) && forall i | 1 <= i <= n :: i in keys
  {
    IndicesCount(n);
    SubsetOfSameSize(keys, Indices(n));
  }

  lemma {:induction false} IndicesWithin(keys: set<int>, n: nat)
    requires forall i | 1 <= i <= n :: i in keys
    ensures Indices(n) <= keys
  {
    if n > 0 {
      IndicesWithin(keys, n - 1);
    }
  }

  lemma SubsetOfSameSize<T>(a: set<T>, b: set<T>)
    requires a <= b && |a| == |b|
    ensures a == b
  {
    if !(b <= a) {
      var x :| x in b && x !in a;
      assert a <= b - {x} && |b - {x}| == |b| - 1;
      SubsetIsSmaller(a, b - {x});
    }
  }

  lemma {:induction false} SubsetIsSmaller<T>(a: set<T>, b: set<T>)
    requires a <= b
    ensures |a| <= |b|
  {
    if a != {} {
      var x :| x in a;
      SubsetIsSmaller(a - {x}, b - {x});
      assert |a - {x}| == |a| - 1 && |b - {x}| == |b| - 1;
    }
  }

  lemma {:induction false} IndicesInRange(answers: seq<Answer>, n: nat)
    ensures ByIndex(answers, n).Keys <= Indices(n)
  {
    IndicesCount(n);
    if answers != [] {
      IndicesInRange(answers[..|answers| - 1], n);
    }
  }

  predicate Answers(answers: seq<Answer>, n: nat, index: int) {
    exists k :: 0 <= k < |answers| && ValidIndex(answers[k], n) && answers[k].index == Some(index)
  }

  /** Position of the last valid answer for an index. */
  ghost predicate IsLastFor(answers: seq<Answer>, n: nat, index: int, k: nat) {
    && k < |answers| && ValidIndex(answers[k], n) && answers[k].index == Some(index)
    && forall j | k < j < |answers| :: !(ValidIndex(answers[j], n) && answers[j].index == Some(index))
  }

  lemma {:induction false} ByIndexIsLast(answers: seq<Answer>, n: nat, index: int, k: nat)
    requires IsLastFor(answers, n, index, k)
    ensures index in ByIndex(answers, n) && ByIndex(answers, n)[index] == answers[k]
  {
    if k < |answers| - 1 {
      ByIndexIsLast(answers[..|answers| - 1], n, index, k);
    }
  }

  lemma {:induction false} ByIndexHasSource(answers: seq<Answer>, n: nat, index: int)
    requires index in ByIndex(answers, n)
    ensures exists k: nat :: IsLastFor(answers, n, index, k)
  {
    var last := |answers| - 1;
    if ValidIndex(answers[last], n) && answers[last].index == Some(index) {
      assert IsLastFor(answers, n, index, last);
    } else {
      ByIndexHasSource(answers[..last], n, index);
      var k: nat :| IsLastFor(answers[..last], n, index, k);
      assert IsLastFor(answers, n, index, k);
    }
  }

  lemma AnsweredIsIndexed(answers: seq<Answer>, n: nat, index: int)
    ensures Answers(answers, n, index) <==> index in ByIndex(answers, n)
  {
    if index in ByIndex(answers, n) {
      ByIndexHasSource(answers, n, index);
      var k: nat :| IsLastFor(answers, n, index, k);
      assert ValidIndex(answers[k], n) && answers[k].index == Some(index);
    }
    if Answers(answers, n, index) {
      var k :| 0 <= k < |answers| && ValidIndex(answers[k], n) && answers[k].index == Some(index);
      AnsweredStays(answers, n, index, k);
    }
  }

  lemma {:induction false} AnsweredStays(answers: seq<Answer>, n: nat, index: int, k: nat)
    requires k < |answers| && ValidIndex(answers[k], n) && answers[k].index == Some(index)
    ensures index in ByIndex(answers, n)
  {
    if k < |answers| - 1 {
      AnsweredStays(answers[..|answers| - 1], n, index, k);
    }
  }

  /** A batch is accepted exactly when every index 1..n is answered: answers out of range and answers
      repeated for one index do not make it fail. */
  lemma AcceptedWhenCovered(n: nat, reply: Reply)
    ensures Classified(n, reply).Some? <==>
      reply.Items? && forall index | 1 <= index <= n :: Answers(reply.answers, n, index)
  {
    if reply.Items? {
      var byIdx := ByIndex(reply.answers, n);
      IndicesInRange(reply.answers, n);
      IndicesCount(n);
      forall index ensures Answers(reply.answers, n, index) <==> index in byIdx {
        AnsweredIsIndexed(reply.answers, n, index);
      }
      if |byIdx| == n {
        AllCovered(byIdx.Keys, n);
      }
      if forall index | 1 <= index <= n :: Answers(reply.answers, n, index) {
        IndicesWithin(byIdx.Keys, n);
        SubsetIsSmaller(byIdx.Keys, Indices(n));
        SubsetIsSmaller(Indices(n), byIdx.Keys);
      }
    }
  }

  // ---- Reordering ----

  /** No two valid answers carry one index. */
  predicate DistinctIndices(answers: seq<Answer>, n: nat) {
    forall i, j | 0 <= i < j < |answers| && ValidIndex(answers[i], n) && ValidIndex(answers[j], n) ::
      answers[i].index != answers[j].index
  }

  /** An answer that occurs twice sits at two positions. */
  lemma {:induction false} OccursTwice(answers: seq<Answer>, i: nat, j: nat)
    requires i < j < |answers| && answers[i] == answers[j]
    ensures multiset(answers)[answers[i]] >= 2
  {
    assert answers == answers[..j] + [answers[j]] + answers[j + 1..];
    assert answers[..j][i] == answers[i];
    assert multiset(answers) == multiset(answers[..j]) + multiset{answers[j]} + multiset(answers[j + 1..]);
    assert answers[i] in multiset(answers[..j]);
  }

  lemma {:induction false} SitsAtTwoPositions(answers: seq<Answer>, g: Answer)
    requires multiset(answers)[g] >= 2
    ensures exists i, j :: 0 <= i < j < |answers| && answers[i] == g && answers[j] == g
  {
    var n := |answers| - 1;
    assert answers == answers[..n] + [answers[n]];
    assert multiset(answers) == multiset(answers[..n]) + multiset{answers[n]};
    if answers[n] == g {
      assert g in multiset(answers[..n]);
      var i :| 0 <= i < n && answers[..n][i] == g;
      assert answers[i] == g && answers[n] == g;
    } else {
      SitsAtTwoPositions(answers[..n], g);
      var i, j :| 0 <= i < j < n && answers[..n][i] == g && answers[..n][j] == g;
      assert answers[i] == g && answers[j] == g;
    }
  }

  lemma DistinctStays(a: seq<Answer>, b: seq<Answer>, n: nat)
    requires multiset(a) == multiset(b) && DistinctIndices(a, n)
    ensures DistinctIndices(b, n)
  {
    forall i, j | 0 <= i < j < |b| && ValidIndex(b[i], n) && ValidIndex(b[j], n) ensures b[i].index != b[j].index {
      if b[i].index == b[j].index {
        assert b[i] in multiset(b) && b[j] in multiset(b);
        var p :| 0 <= p < |a| && a[p] == b[i];
        var q :| 0 <= q < |a| && a[q] == b[j];
        if b[i] == b[j] {
          OccursTwice(b, i, j);
          SitsAtTwoPositions(a, b[i]);
        }
        assert false;
      }
    }
  }

  lemma UniqueIsLast(answers: seq<Answer>, n: nat, k: nat)
    requires DistinctIndices(answers, n) && k < |answers| && ValidIndex(answers[k], n)
    ensures IsLastFor(answers, n, answers[k].index.value, k)
  {
  }

  /** Reordering the answers of a batch whose indices are distinct changes nothing. */
  lemma ReorderingChangesNothing(n: nat, a: seq<Answer>, b: seq<Answer>)
    requires multiset(a) == multiset(b) && DistinctIndices(a, n)
    ensures Classified(n, Items(a)) == Classified(n, Items(b))
  {
    DistinctStays(a, b, n);
    var x, y := ByIndex(a, n), ByIndex(b, n);
    forall index ensures index in x <==> index in y
      ensures index in x ==> x[index] == y[index]
    {
      if index in x {
        SameAnswer(a, b, n, index);
      }
      if index in y {
        SameAnswer(b, a, n, index);
      }
    }
    assert x == y;
  }

  lemma SameAnswer(a: seq<Answer>, b: seq<Answer>, n: nat, index: int)
    requires multiset(a) == multiset(b) && DistinctIndices(b, n) && index in ByIndex(a, n)
    ensures index in ByIndex(b, n) && ByIndex(b, n)[index] == ByIndex(a, n)[index]
  {
    ByIndexHasSource(a, n, index);
    var k: nat :| IsLastFor(a, n, index, k);
    ByIndexIsLast(a, n, index, k);
    assert a[k] in multiset(b);
    var j :| 0 <= j < |b| && b[j] == a[k];
    UniqueIsLast(b, n, j);
    ByIndexIsLast(b, n, index, j);
  }

  // ---- All batches ----

  function BatchOf(descriptions: seq<string>, start: nat): seq<string>
    requires start <= |descriptions|
  {
    if start + BATCH <= |descriptions| then descriptions[start..start + BATCH] else descriptions[start..]
  }

  function Padded(n: nat, labels: Option<seq<Label>>): seq<Option<Label>>
    requires labels.Some? ==> |labels.value| == n
  {
    seq(n, i requires 0 <= i < n => if labels.Some? then Some(labels.value[i]) else None)
  }

  /** Batches from `start` on; a failed batch leaves None for each of its items. */
  function CategorisedFrom(descriptions: seq<string>, ask: seq<string> -> Reply, start: nat): seq<Option<Label>>
    requires start <= |descriptions|
    decreases |descriptions| - start
  {
    if start == |descriptions| then []
    else
      var batch := BatchOf(descriptions, start);
      Padded(|batch|, Classified(|batch|, ask(batch))) + CategorisedFrom(descriptions, ask, start + |batch|)
  }

  function Categorised(descriptions: seq<string>, ask: seq<string> -> Reply): seq<Option<Label>> {
    CategorisedFrom(descriptions, ask, 0)
  }

  function BatchStart(i: nat): nat {
    i / BATCH * BATCH
  }

  lemma NextBatch(descriptions: seq<string>, ask: seq<string> -> Reply, start: nat)
    requires start < |descriptions|
    ensures var batch := BatchOf(descriptions, start);
      CategorisedFrom(descriptions, ask, start)
        == Padded(|batch|, Classified(|batch|, ask(batch))) + CategorisedFrom(descriptions, ask, start + |batch|)
  {
  }

  lemma {:induction false} OneEntryEach(descriptions: seq<string>, ask: seq<string> -> Reply, start: nat)
    requires start <= |descriptions|
    ensures |CategorisedFrom(descriptions, ask, start)| == |descriptions| - start
    decreases |descriptions| - start
  {
    if start < |descriptions| {
      OneEntryEach(descriptions, ask, start + |BatchOf(descriptions, start)|);
    }
  }

  /** The entry of description i, as its batch was answered. */
  function EntryOf(descriptions: seq<string>, ask: seq<string> -> Reply, i: nat): Option<Label>
    requires i < |descriptions|
  {
    var first := BatchStart(i);
    var batch := BatchOf(descriptions, first);
    Padded(|batch|, Classified(|batch|, ask(batch)))[i - first]
  }

  lemma BatchStarts(start: nat, i: nat)
    requires start % BATCH == 0 && start <= i < start + BATCH
    ensures BatchStart(i) == start
  {
  }

  lemma {:induction false} AlignedFrom(descriptions: seq<string>, ask: seq<string> -> Reply, start: nat, i: nat)
    requires start <= |descriptions| && start % BATCH == 0 && start <= i < |descriptions|
    requires |CategorisedFrom(descriptions, ask, start)| == |descriptions| - start
    ensures CategorisedFrom(descriptions, ask, start)[i - start] == EntryOf(descriptions, ask, i)
    decreases |descriptions| - start
  {
    var next := start + |BatchOf(descriptions, start)|;
    NextBatch(descriptions, ask, start);
    if i < next {
      BatchStarts(start, i);
    } else {
      OneEntryEach(descriptions, ask, next);
      AlignedFrom(descriptions, ask, next, i);
    }
  }

  /** An answered text without its outer white space; "" when there is none. */
  function Answered(x: Option<string>): string {
    Strip(x.GetOr(""))
  }

  /** A label shows an answer: its category, or "Other" when that is blank, and its variety, or the category
      shown when that is blank. */
  predicate Shows(shown: Label, g: Answer) {
    && shown.category == (if Answered(g.category) != "" then Answered(g.category) else "Other")
    && shown.variety == (if Answered(g.variety) != "" then Answered(g.variety) else shown.category)
  }

  ghost predicate ShowsLastAnswer(shown: Label, answers: seq<Answer>, n: nat, index: int) {
    exists k: nat :: IsLastFor(answers, n, index, k) && Shows(shown, answers[k])
  }

  lemma CleanedShows(x: Option<string>, fallback: string)
    requires Strip(fallback) == fallback
    ensures Cleaned(x, fallback) == if Answered(x) != "" then Answered(x) else fallback
  {
    assert Strip("") == "";
  }

  lemma LabelShowsItsAnswer(g: Answer)
    ensures Shows(LabelOf(g), g)
  {
    OtherIsStripped();
    CleanedShows(g.category, OTHER_CATEGORY);
    StripIdempotent(g.category.GetOr(""));
    CleanedShows(g.variety, LabelOf(g).category);
  }

  lemma OtherIsStripped()
    ensures Strip(OTHER_CATEGORY) == OTHER_CATEGORY
  {
    assert StripLeft(OTHER_CATEGORY) == OTHER_CATEGORY && StripRight(OTHER_CATEGORY) == OTHER_CATEGORY;
  }

  /** One entry per description, in order: entry i is present exactly when its batch of 25 answered every index,
      and then shows the last answer its batch gave for its own index. */
  lemma CategoriesAreAligned(descriptions: seq<string>, ask: seq<string> -> Reply)
    ensures |Categorised(descriptions, ask)| == |descriptions|
    ensures forall i | 0 <= i < |descriptions| :: EntryAligned(descriptions, ask, i)
  {
    OneEntryEach(descriptions, ask, 0);
    forall i | 0 <= i < |descriptions| ensures EntryAligned(descriptions, ask, i) {
      EntryIsAligned(descriptions, ask, i);
    }
  }

  /** The descriptions that are asked about together with description i: 25, or what is left. */
  function BatchAround(descriptions: seq<string>, i: nat): seq<string>
    requires i < |descriptions|
  {
    var first := i / 25 * 25;
    descriptions[first..if first + 25 < |descriptions| then first + 25 else |descriptions|]
  }

  lemma BatchIsAround(descriptions: seq<string>, i: nat)
    requires i < |descriptions|
    ensures BatchStart(i) == i / 25 * 25 <= i < BatchStart(i) + |BatchAround(descriptions, i)|
    ensures BatchOf(descriptions, BatchStart(i)) == BatchAround(descriptions, i)
  {
  }

  ghost predicate EntryAligned(descriptions: seq<string>, ask: seq<string> -> Reply, i: nat)
    requires i < |descriptions| == |Categorised(descriptions, ask)|
  {
    var first, batch := i / 25 * 25, BatchAround(descriptions, i);
    var n, reply, entry := |batch|, ask(batch), Categorised(descriptions, ask)[i];
    && i - first < n
    && (entry.Some? <==> reply.Items? && forall index | 1 <= index <= n :: Answers(reply.answers, n, index))
    && (entry.Some? ==> ShowsLastAnswer(entry.value, reply.answers, n, i - first + 1))
  }

  lemma EntryIsAligned(descriptions: seq<string>, ask: seq<string> -> Reply, i: nat)
    requires i < |descriptions| == |Categorised(descriptions, ask)|
    ensures EntryAligned(descriptions, ask, i)
  {
    AlignedFrom(descriptions, ask, 0, i);
    BatchIsAround(descriptions, i);
    var first, batch := BatchStart(i), BatchAround(descriptions, i);
    var n, reply := |batch|, ask(batch);
    AcceptedWhenCovered(n, reply);
    if Classified(n, reply).Some? {
      LabelHasSource(n, reply, i - first);
    }
  }

  lemma LabelHasSource(n: nat, reply: Reply, j: nat)
    requires Classified(n, reply).Some? && j < n
    ensures ShowsLastAnswer(Classified(n, reply).value[j], reply.answers, n, j + 1)
  {
    IndicesInRange(reply.answers, n);
    AllCovered(ByIndex(reply.answers, n).Keys, n);
    ByIndexHasSource(reply.answers, n, j + 1);
    var k: nat :| IsLastFor(reply.answers, n, j + 1, k);
    ByIndexIsLast(reply.answers, n, j + 1, k);
    LabelShowsItsAnswer(reply.answers[k]);
  }

  lemma CleanedIsClean(x: Option<string>, fallback: string)
    requires fallback != "" && Strip(fallback) == fallback
    ensures Cleaned(x, fallback) != "" && Strip(Cleaned(x, fallback)) == Cleaned(x, fallback)
  {
    StripIdempotent(if x.None? || x.value == "" then fallback else x.value);
  }

  /** No label is blank, and none carries outer white space. */
  lemma LabelsAreClean(g: Answer)
    ensures var l := LabelOf(g);
      l.category != "" && l.variety != "" && Strip(l.category) == l.category && Strip(l.variety) == l.variety
  {
    OtherIsStripped();
    CleanedIsClean(g.category, OTHER_CATEGORY);
    CleanedIsClean(g.variety, LabelOf(g).category);
  }

  // ---- The loops ----

  method ClassifyBatch(n: nat, reply: Reply) returns (labels: Option<seq<Label>>)
    ensures labels == Classified(n, reply)
    ensures labels.Some? ==> forall j: nat | j < n :: ShowsLastAnswer(labels.value[j], reply.answers, n, j + 1)
  {
    if reply.Raised? {
      return None;
    }
    var got := reply.answers;
    var byIdx: map<int, Answer> := map[];
    for k := 0 to |got|
      invariant byIdx == ByIndex(got[..k], n)
    {
      assert got[..k + 1][..k] == got[..k];
      if got[k].index.Some? && 1 <= got[k].index.value <= n {
        byIdx := byIdx[got[k].index.value := got[k]];
      }
    }
    assert got[..|got|] == got;
    if |byIdx| != n {
      return None;
    }
    IndicesInRange(got, n);
    AllCovered(byIdx.Keys, n);
    var out := LabelsInOrder(byIdx, n);
    labels := Some(out);
    forall j: nat | j < n ensures ShowsLastAnswer(out[j], got, n, j + 1) {
      LabelHasSource(n, reply, j);
    }
  }

  method LabelsInOrder(byIdx: map<int, Answer>, n: nat) returns (out: seq<Label>)
    requires forall i | 1 <= i <= n :: i in byIdx
    ensures out == seq(n, i requires 0 <= i < n => LabelOf(byIdx[i + 1]))
  {
    out := [];
    for i := 1 to n + 1
      invariant |out| == i - 1 && forall j | 0 <= j < i - 1 :: out[j] == LabelOf(byIdx[j + 1])
    {
      out := out + [LabelOf(byIdx[i])];
    }
  }

  lemma BatchDone(descriptions: seq<string>, ask: seq<string> -> Reply, start: nat, out: seq<Option<Label>>)
    requires start < |descriptions|
    ensures var batch := BatchOf(descriptions, start);
      var done := out + Padded(|batch|, Classified(|batch|, ask(batch)));
      out + CategorisedFrom(descriptions, ask, start) == done + CategorisedFrom(descriptions, ask, start + |batch|)
  {
    NextBatch(descriptions, ask, start);
  }

  method CategoriseDescriptions(descriptions: seq<string>, ask: seq<string> -> Reply) returns (out: seq<Option<Label>>)
    ensures out == Categorised(descriptions, ask)
  {
    out := [];
    var start := 0;
    while start < |descriptions|
      invariant start <= |descriptions|
      invariant out + CategorisedFrom(descriptions, ask, start) == Categorised(descriptions, ask)
    {
      var batch := BatchOf(descriptions, start);
      var labels := ClassifyBatch(|batch|, ask(batch));
      BatchDone(descriptions, ask, start, out);
      out := out + Padded(|batch|, labels);
      start := start + |batch|;
    }
  }
}
