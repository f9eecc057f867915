/**
 * `sort_and_limit`: sorts the enriched records in place, ongoing records
 * first and then by start instant, keeping the input order among records
 * with equal keys (Python's `list.sort` is stable), and keeps the first
 * `limit` of them.
 *
 * Any two stable sorts by the same key give the same list, so the sort is
 * modelled as an insertion sort: `InsertionSort` is its specification and
 * `SortInPlace` runs it on an array.
 */
module SortLimit {
  import opened Wrappers
  import opened Events
  import opened Seqs

  /** The first component of the sort key, `not ev['ongoing']`, with `False < True`. */
  function Group(e: EnrichedEvent): int {
    if e.ongoing then 0 else 1
  }

  /**
   * The second component, `ev['start_dt']`. Every record `enrich_and_filter`
   * builds has it; the source would raise `KeyError` on one without it, which
   * `SortAndLimit` excludes in its precondition.
   */
  function StartKey(e: EnrichedEvent): int {
    if e.startDt.Some? then e.startDt.value else 0
  }

  predicate HasStarts(s: seq<EnrichedEvent>) {
    forall i :: 0 <= i < |s| ==> s[i].startDt.Some?
  }

  /** `key(a) < key(b)` in the lexicographic tuple order. */
  predicate KeyLt(a: EnrichedEvent, b: EnrichedEvent) {
    Group(a) < Group(b) || (Group(a) == Group(b) && StartKey(a) < StartKey(b))
  }

  predicate Sorted(s: seq<EnrichedEvent>) {
    forall i, j :: 0 <= i < j < |s| ==> !KeyLt(s[j], s[i])
  }

  /** Inserts `x` after every element whose key is not greater than its own. */
  function Insert(s: seq<EnrichedEvent>, x: EnrichedEvent): (r: seq<EnrichedEvent>)
    ensures |r| == |s| + 1
  {
    if s == [] || !KeyLt(x, s[|s| - 1]) then s + [x]
    else Insert(s[..|s| - 1], x) + [s[|s| - 1]]
  }

  /** The stable sort of `s` by key. */
  function InsertionSort(s: seq<EnrichedEvent>): (r: seq<EnrichedEvent>)
    ensures |r| == |s|
  {
    if s == [] then [] else Insert(InsertionSort(s[..|s| - 1]), s[|s| - 1])
  }

  /** `enriched[:limit]` when a limit is given, with Python's slice rules for a negative one. */
  function Truncated(s: seq<EnrichedEvent>, limit: Option<int>): (r: seq<EnrichedEvent>)
    ensures |r| <= |s| && r == s[..|r|]
    ensures limit.None? ==> r == s
    ensures limit.Some? && limit.value >= 0 ==> |r| == if limit.value < |s| then limit.value else |s|
    ensures limit.Some? && limit.value < 0 ==> |r| == if |s| + limit.value > 0 then |s| + limit.value else 0
  {
    match limit
    case None => s
    case Some(k) =>
      var stop := if k >= 0 then k else |s| + k;
      if stop <= 0 then [] else if stop >= |s| then s else s[..stop]
  }

  /** Where the inner loop of `SortInPlace` stops, inserting there is `Insert`. */
  lemma {:induction false} InsertAt(s: seq<EnrichedEvent>, x: EnrichedEvent, j: nat)
    requires j <= |s|
    requires j == 0 || !KeyLt(x, s[j - 1])
    requires forall k :: j <= k < |s| ==> KeyLt(x, s[k])
    ensures Insert(s, x) == s[..j] + [x] + s[j..]
    decreases |s|
  {
    if j == |s| {
      assert s[..j] == s && s[j..] == [];
    } else {
      var init, last := s[..|s| - 1], s[|s| - 1];
      InsertAt(init, x, j);
      assert init[..j] == s[..j];
      assert init[j..] + [last] == s[j..];
    }
  }

  lemma {:induction false} InsertPermutes(s: seq<EnrichedEvent>, x: EnrichedEvent)
    ensures multiset(Insert(s, x)) == multiset(s) + multiset{x}
    decreases |s|
  {
    if s != [] && KeyLt(x, s[|s| - 1]) {
      InsertPermutes(s[..|s| - 1], x);
      assert s == s[..|s| - 1] + [s[|s| - 1]];
    }
  }

  lemma {:induction false} InsertMembers(s: seq<EnrichedEvent>, x: EnrichedEvent)
    ensures forall e :: e in Insert(s, x) ==> e == x || e in s
    decreases |s|
  {
    if s != [] && KeyLt(x, s[|s| - 1]) {
      InsertMembers(s[..|s| - 1], x);
    }
  }

  /** `Insert` keeps a sorted sequence sorted. */
  lemma {:induction false} InsertSorted(s: seq<EnrichedEvent>, x: EnrichedEvent)
    requires Sorted(s)
    ensures Sorted(Insert(s, x))
    decreases |s|
  {
    if s != [] && KeyLt(x, s[|s| - 1]) {
      var init, last := s[..|s| - 1], s[|s| - 1];
      InsertSorted(init, x);
      InsertMembers(init, x);
      var r := Insert(init, x);
      forall i | 0 <= i < |r| ensures !KeyLt(last, r[i]) {
        assert r[i] in r;
      }
    }
  }

  /** The result is sorted by key: ongoing records first, then by start. */
  lemma {:induction false} InsertionSortSorted(s: seq<EnrichedEvent>)
    ensures Sorted(InsertionSort(s))
  {
    if s != [] {
      InsertionSortSorted(s[..|s| - 1]);
      InsertSorted(InsertionSort(s[..|s| - 1]), s[|s| - 1]);
    }
  }

  /** The result is a permutation of the input. */
  lemma {:induction false} InsertionSortPermutes(s: seq<EnrichedEvent>)
    ensures multiset(InsertionSort(s)) == multiset(s)
  {
    if s != [] {
      InsertionSortPermutes(s[..|s| - 1]);
      InsertPermutes(InsertionSort(s[..|s| - 1]), s[|s| - 1]);
      assert s == s[..|s| - 1] + [s[|s| - 1]];
    }
  }

  /** The records of `s` whose key equals that of `k`, in order. */
  function WithKeyOf(k: EnrichedEvent): EnrichedEvent -> Option<EnrichedEvent> {
    e => if Group(e) == Group(k) && StartKey(e) == StartKey(k) then Some(e) else None
  }

  lemma {:induction false} InsertStable(s: seq<EnrichedEvent>, x: EnrichedEvent, k: EnrichedEvent)
    ensures FilterMap(Insert(s, x), WithKeyOf(k)) == FilterMap(s, WithKeyOf(k)) + Contribution(x, WithKeyOf(k))
    decreases |s|
  {
    if s == [] || !KeyLt(x, s[|s| - 1]) {
      FilterMapSnoc(s, x, WithKeyOf(k));
    } else {
      var init, last := s[..|s| - 1], s[|s| - 1];
      InsertStable(init, x, k);
      FilterMapSnoc(Insert(init, x), last, WithKeyOf(k));
    }
  }

  /** Stability: records with equal keys keep their input order. */
  lemma {:induction false} InsertionSortStable(s: seq<EnrichedEvent>, k: EnrichedEvent)
    ensures FilterMap(InsertionSort(s), WithKeyOf(k)) == FilterMap(s, WithKeyOf(k))
  {
    if s != [] {
      var init, last := s[..|s| - 1], s[|s| - 1];
      InsertionSortStable(init, k);
      InsertStable(InsertionSort(init), last, k);
    }
  }

  /** `enriched.sort(key=lambda ev: (not ev['ongoing'], ev['start_dt']))`. */
  method SortInPlace(a: array<EnrichedEvent>)
    modifies a
    ensures a[..] == InsertionSort(old(a[..]))
  {
    ghost var input := a[..];
    for i := 0 to a.Length
      invariant a[..i] == InsertionSort(input[..i])
      invariant a[i..] == input[i..]
    {
      assert a[i] == input[i];
      InsertInto(a, i);
      assert input[..i + 1][..i] == input[..i];
      assert a[..i + 1] == Insert(InsertionSort(input[..i]), input[i]);
    }
    assert input[..a.Length] == input;
  }

  /** One pass of the outer loop: moves `a[i]` down into the sorted prefix `a[..i]`. */
  method InsertInto(a: array<EnrichedEvent>, i: nat)
    requires i < a.Length
    modifies a
    ensures a[..i + 1] == Insert(old(a[..i]), old(a[i]))
    ensures a[i + 1..] == old(a[i + 1..])
  {
    ghost var sorted := a[..i];
    var x := a[i];
    var j := i;
    while j > 0 && KeyLt(x, a[j - 1])
      invariant 0 <= j <= i
      invariant forall k :: 0 <= k < j ==> a[k] == sorted[k]
      invariant forall k :: j < k <= i ==> a[k] == sorted[k - 1]
      invariant a[i + 1..] == old(a[i + 1..])
      invariant forall k :: j <= k < i ==> KeyLt(x, sorted[k])
    {
      a[j] := a[j - 1];
      j := j - 1;
    }
    a[j] := x;
    InsertAt(sorted, x, j);
    ghost var inserted := sorted[..j] + [x] + sorted[j..];
    forall k | 0 <= k <= i ensures a[k] == inserted[k] {
      if k > j {
        assert inserted[k] == sorted[k - 1];
      }
    }
    assert a[..i + 1] == inserted;
  }

  /** `sort_and_limit(enriched, limit)`: sorts `a` in place and returns its first `limit` records. */
  method SortAndLimit(a: array<EnrichedEvent>, limit: Option<int>) returns (r: seq<EnrichedEvent>)
    requires HasStarts(a[..])
    modifies a
    ensures a[..] == InsertionSort(old(a[..]))
    ensures r == Truncated(a[..], limit)
  {
    SortInPlace(a);
    r := Truncated(a[..], limit);
  }

  /** Ongoing records come before all others, and within each group starts never decrease. */
  lemma SortedOrder(s: seq<EnrichedEvent>)
    ensures var r := InsertionSort(s);
            forall i, j :: 0 <= i < j < |r| ==>
              (r[i].ongoing || !r[j].ongoing) && (r[i].ongoing == r[j].ongoing ==> StartKey(r[i]) <= StartKey(r[j]))
  {
    InsertionSortSorted(s);
  }

}
