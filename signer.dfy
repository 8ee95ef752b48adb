/**
 * The hash pipeline of hw2_signer: SingleHash, MultiHash and CombineResults,
 * one item at a time. DataSignerCrc32 and DataSignerMd5 are not part of this
 * model; they are the parameters `crc32` and `md5`. The goroutines are
 * replaced by the choices a scheduler can make: the order in which the
 * workers of one item report their digests, and the order in which the items
 * of a stage finish.
 */
module Signer {
  import opened Seqs
  import opened GoStrings
  import opened Strconv
  import opened Sorting

  /** What a crc32 worker (myCrc32) sends back: its digest and the slot it belongs in. */
  datatype Crc32Res = Crc32Res(index: nat, crc32Str: string)

  // ---------------------------------------------------------------------
  // Reference results, computed sequentially.

  /** SingleHash of one item, as the sequential version of the stage computes it. */
  function SingleHashOf(crc32: string -> string, md5: string -> string, n: int): string {
    var s := Itoa(n);
    crc32(s) + "~" + crc32(md5(s))
  }

  function SingleHashFn(crc32: string -> string, md5: string -> string): int -> string {
    n => SingleHashOf(crc32, md5, n)
  }

  /** The six digests MultiHash computes for `v`: the one in slot i is crc32 of i's decimal text followed by `v`. */
  function MultiDigests(crc32: string -> string, v: string): (r: seq<string>)
    ensures |r| == 6
  {
    seq(6, i requires 0 <= i < 6 => crc32(Itoa(i) + v))
  }

  /** The texts of `parts` one after another, accumulated left to right. */
  function Concat(parts: seq<string>): string {
    if parts == [] then "" else Concat(parts[..|parts| - 1]) + parts[|parts| - 1]
  }

  /** MultiHash of one item: its six digests in slot order. */
  function MultiHashOf(crc32: string -> string, v: string): string {
    Concat(MultiDigests(crc32, v))
  }

  function MultiHashFn(crc32: string -> string): string -> string {
    v => MultiHashOf(crc32, v)
  }

  /** CombineResults: the items sorted byte-wise and joined with "_". */
  function CombineOf(items: seq<string>): string {
    Join(InsertionSort(items, LessEq), "_")
  }

  // ---------------------------------------------------------------------
  // The indexed join: digests may arrive in any order.

  function TagOf(digests: seq<string>): nat -> Crc32Res {
    (i: nat) => if i < |digests| then Crc32Res(i, digests[i]) else Crc32Res(i, "")
  }

  /** The records the workers of one item send, in slot order. */
  function Tagged(digests: seq<string>): seq<Crc32Res> {
    Map(TagOf(digests), Iota(|digests|))
  }

  /** The same records, in the order the scheduler delivers them. */
  function Arrive(digests: seq<string>, order: seq<nat>): seq<Crc32Res> {
    Map(TagOf(digests), order)
  }

  lemma ArriveIsPermutation(digests: seq<string>, order: seq<nat>)
    requires IsOrder(order, |digests|)
    ensures multiset(Arrive(digests, order)) == multiset(Tagged(digests))
  {
    MapPermutation(TagOf(digests), order, Iota(|digests|));
  }

  /** Every record that arrives names a real slot and carries that slot's digest. */
  lemma ArrivedRecord(arrival: seq<Crc32Res>, digests: seq<string>, k: nat)
    requires multiset(arrival) == multiset(Tagged(digests)) && k < |arrival|
    ensures arrival[k].index < |digests| && arrival[k].crc32Str == digests[arrival[k].index]
  {
    assert arrival[k] in multiset(Tagged(digests));
    var i :| 0 <= i < |Tagged(digests)| && Tagged(digests)[i] == arrival[k];
    MapAt(TagOf(digests), Iota(|digests|), i);
  }

  /** Every slot gets a record. */
  lemma EveryIndexArrives(arrival: seq<Crc32Res>, digests: seq<string>, i: nat)
    requires multiset(arrival) == multiset(Tagged(digests)) && i < |digests|
    ensures exists k :: 0 <= k < |arrival| && arrival[k].index == i
  {
    MapAt(TagOf(digests), Iota(|digests|), i);
    assert Tagged(digests)[i] in multiset(arrival);
  }

  /** Writes each arriving record into the slot its index names, as SingleHash
      and MultiHash do: whatever the arrival order, the slots end up holding
      the digests in slot order. */
  method FillSlots(n: nat, arrival: seq<Crc32Res>, ghost digests: seq<string>) returns (slots: seq<string>)
    requires |digests| == n && multiset(arrival) == multiset(Tagged(digests))
    ensures slots == digests
  {
    var a := new string[n](_ => "");
    var k := 0;
    while k < |arrival|
      invariant 0 <= k <= |arrival|
      invariant forall i :: 0 <= i < n ==>
                  a[i] == digests[i] || (a[i] == "" && forall j :: 0 <= j < k ==> arrival[j].index != i)
    {
      ArrivedRecord(arrival, digests, k);
      a[arrival[k].index] := arrival[k].crc32Str;
      k := k + 1;
    }
    forall i | 0 <= i < n ensures a[i] == digests[i] {
      EveryIndexArrives(arrival, digests, i);
    }
    slots := a[..];
  }

  // ---------------------------------------------------------------------
  // One item.

  /** SingleHash of one item: two workers, crc32 of the text (slot 0) and crc32
      of its md5 (slot 1), report in the order `order`; the item's result is
      the same as the sequential version's. */
  method SingleHashItem(crc32: string -> string, md5: string -> string, n: int, order: seq<nat>)
    returns (result: string)
    requires IsOrder(order, 2)
    ensures result == SingleHashOf(crc32, md5, n)
  {
    var strval := Itoa(n);
    var md5Val := md5(strval);
    var digests := [crc32(strval), crc32(md5Val)];
    ArriveIsPermutation(digests, order);
    var slots := FillSlots(2, Arrive(digests, order), digests);
    result := slots[0] + "~" + slots[1];
  }

  /** MultiHash of one item: six workers report in the order `order`; the
      slots are then concatenated in slot order. */
  method MultiHashItem(crc32: string -> string, v: string, order: seq<nat>) returns (result: string)
    requires IsOrder(order, 6)
    ensures result == MultiHashOf(crc32, v)
  {
    var digests := MultiDigests(crc32, v);
    ArriveIsPermutation(digests, order);
    var slots := FillSlots(6, Arrive(digests, order), digests);
    result := ConcatSlots(slots);
  }

  /** The loop that appends the slots in slot order. */
  method ConcatSlots(slots: seq<string>) returns (result: string)
    ensures result == Concat(slots)
  {
    result := "";
    var j := 0;
    while j < |slots|
      invariant 0 <= j <= |slots|
      invariant result == Concat(slots[..j])
    {
      assert slots[..j + 1][..j] == slots[..j];
      result := result + slots[j];
      j := j + 1;
    }
    assert slots[..j] == slots;
  }

  /** The plain crc32 stands left of "~" and the crc32 of the md5 right of it. */
  lemma SingleHashSplit(crc32: string -> string, md5: string -> string, n: int)
    requires '~' !in crc32(Itoa(n)) && '~' !in crc32(md5(Itoa(n)))
    ensures Split(SingleHashOf(crc32, md5, n), '~') == [crc32(Itoa(n)), crc32(md5(Itoa(n)))]
  {
    var parts := [crc32(Itoa(n)), crc32(md5(Itoa(n)))];
    SplitJoin(parts, '~');
    assert Join(parts, "~") == SingleHashOf(crc32, md5, n);
  }

  lemma {:induction false} ConcatPrefix(parts: seq<string>, j: nat)
    requires j <= |parts|
    ensures Concat(parts[..j]) <= Concat(parts)
  {
    if j < |parts| {
      var init := parts[..|parts| - 1];
      assert parts[..j] == init[..j];
      ConcatPrefix(init, j);
    } else {
      assert parts[..j] == parts;
    }
  }

  /** Digest i of `v` stands in the MultiHash result right after digests 0..i-1. */
  lemma MultiHashSegment(crc32: string -> string, v: string, i: nat)
    requires i < 6
    ensures var before := Concat(MultiDigests(crc32, v)[..i]);
            before + crc32(Itoa(i) + v) <= MultiHashOf(crc32, v)
  {
    var digests := MultiDigests(crc32, v);
    ConcatPrefix(digests, i + 1);
    assert digests[..i + 1][..i] == digests[..i];
  }

  // ---------------------------------------------------------------------
  // Whole stages.

  /** Results produced per item, in any completion order, are the per-item
      function mapped over the input, up to order. */
  lemma StageResults<A>(g: A -> string, input: seq<A>, f: nat -> string, completion: seq<nat>)
    requires IsOrder(completion, |input|)
    requires forall i :: 0 <= i < |input| ==> f(i) == g(input[i])
    ensures |Map(f, completion)| == |input|
    ensures multiset(Map(f, completion)) == multiset(Map(g, input))
  {
    MapPermutation(f, completion, Iota(|input|));
    MapIndices(g, input, f);
    assert |multiset(completion)| == |multiset(Iota(|input|))|;
  }

  /** SingleHash over a stream: the items finish in the order `completion`
      and the digests of item k arrive in the order `branchOrders[k]`. One
      result per item; as a multiset, the reference result mapped over the
      input. */
  method SingleHashStage(crc32: string -> string, md5: string -> string, input: seq<int>,
                         completion: seq<nat>, branchOrders: seq<seq<nat>>)
    returns (output: seq<string>)
    requires IsOrder(completion, |input|)
    requires |branchOrders| == |input| && forall k :: 0 <= k < |input| ==> IsOrder(branchOrders[k], 2)
    ensures |output| == |input|
    ensures multiset(output) == multiset(Map(SingleHashFn(crc32, md5), input))
  {
    ghost var f := (i: nat) => if i < |input| then SingleHashOf(crc32, md5, input[i]) else "";
    output := [];
    var k := 0;
    while k < |completion|
      invariant 0 <= k <= |completion|
      invariant output == Map(f, completion[..k])
    {
      OrderBounded(completion, |input|, k);
      var item := completion[k];
      var r := SingleHashItem(crc32, md5, input[item], branchOrders[item]);
      MapSnoc(f, completion, k);
      output := output + [r];
      k := k + 1;
    }
    assert completion[..k] == completion;
    StageResults(SingleHashFn(crc32, md5), input, f, completion);
  }

  /** MultiHash over a stream, in the same terms as SingleHashStage. */
  method MultiHashStage(crc32: string -> string, input: seq<string>,
                        completion: seq<nat>, slotOrders: seq<seq<nat>>)
    returns (output: seq<string>)
    requires IsOrder(completion, |input|)
    requires |slotOrders| == |input| && forall k :: 0 <= k < |input| ==> IsOrder(slotOrders[k], 6)
    ensures |output| == |input|
    ensures multiset(output) == multiset(Map(MultiHashFn(crc32), input))
  {
    ghost var f := (i: nat) => if i < |input| then MultiHashOf(crc32, input[i]) else "";
    output := [];
    var k := 0;
    while k < |completion|
      invariant 0 <= k <= |completion|
      invariant output == Map(f, completion[..k])
    {
      OrderBounded(completion, |input|, k);
      var item := completion[k];
      var r := MultiHashItem(crc32, input[item], slotOrders[item]);
      MapSnoc(f, completion, k);
      output := output + [r];
      k := k + 1;
    }
    assert completion[..k] == completion;
    StageResults(MultiHashFn(crc32), input, f, completion);
  }

  /** CombineResults: collect every result, sort them in place byte-wise and
      join them with "_"; no input gives "". */
  method CombineResults(input: seq<string>) returns (result: string)
    ensures result == CombineOf(input)
    ensures input == [] ==> result == ""
  {
    var unsorted: seq<string> := [];
    var k := 0;
    while k < |input|
      invariant 0 <= k <= |input|
      invariant unsorted == input[..k]
    {
      unsorted := unsorted + [input[k]];
      k := k + 1;
    }
    assert unsorted == input;
    var a := new string[|unsorted|](i requires 0 <= i < |unsorted| => unsorted[i]);
    assert a[..] == input;
    LessEqTotalOrder();
    SortInPlace(a, LessEq);
    SortedIsInsertionSort(input, a[..], LessEq);
    result := Join(a[..], "_");
  }

  /** The combined result does not depend on the order the results came in. */
  lemma CombinePermutationInvariant(a: seq<string>, b: seq<string>)
    requires multiset(a) == multiset(b)
    ensures CombineOf(a) == CombineOf(b)
  {
    LessEqTotalOrder();
    InsertionSortCorrect(a, LessEq);
    InsertionSortCorrect(b, LessEq);
    SortedUnique(InsertionSort(a, LessEq), InsertionSort(b, LessEq), LessEq);
  }

  /** Splitting the combined result at "_" gives back the items, sorted. */
  lemma CombineSplit(items: seq<string>)
    requires |items| >= 1
    requires forall k :: 0 <= k < |items| ==> '_' !in items[k]
    ensures var parts := Split(CombineOf(items), '_');
            SortedBy(parts, LessEq) && multiset(parts) == multiset(items)
  {
    LessEqTotalOrder();
    var sorted := InsertionSort(items, LessEq);
    InsertionSortCorrect(items, LessEq);
    assert |sorted| == |multiset(sorted)| == |items|;
    forall k | 0 <= k < |sorted| ensures '_' !in sorted[k] {
      assert sorted[k] in multiset(items);
    }
    SplitJoin(sorted, '_');
  }

  /** The jobs SingleHash, MultiHash and CombineResults run one after another:
      whatever the scheduler does, the one combined result is the sequential
      one. */
  method Pipeline(crc32: string -> string, md5: string -> string, input: seq<int>,
                  completion1: seq<nat>, branchOrders: seq<seq<nat>>,
                  completion2: seq<nat>, slotOrders: seq<seq<nat>>)
    returns (result: string)
    requires IsOrder(completion1, |input|) && IsOrder(completion2, |input|)
    requires |branchOrders| == |input| && forall k :: 0 <= k < |input| ==> IsOrder(branchOrders[k], 2)
    requires |slotOrders| == |input| && forall k :: 0 <= k < |input| ==> IsOrder(slotOrders[k], 6)
    ensures result == CombineOf(Map(MultiHashFn(crc32), Map(SingleHashFn(crc32, md5), input)))
  {
    var singles := SingleHashStage(crc32, md5, input, completion1, branchOrders);
    var multis := MultiHashStage(crc32, singles, completion2, slotOrders);
    result := CombineResults(multis);
    MapPermutation(MultiHashFn(crc32), singles, Map(SingleHashFn(crc32, md5), input));
    CombinePermutationInvariant(multis, Map(MultiHashFn(crc32), Map(SingleHashFn(crc32, md5), input)));
  }
}
