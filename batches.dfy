/** How `RanksStream.do_sync` turns the product ids into comma-joined id batches:
    drop the sub-product ids, cut the rest into groups of at most ten, join each group. */
module Batches {

  /** The API accepts at most this many ids per ranks request. */
  const BatchSize := 10

  predicate IsDigit(c: char) {
    '0' <= c <= '9'
  }

  predicate AllDigits(s: string) {
    forall k :: 0 <= k < |s| ==> IsDigit(s[k])
  }

  function DigitChar(d: nat): (c: char)
    requires d < 10
    ensures IsDigit(c)
  {
    "0123456789"[d]
  }

  /** `str(n)` of a non-negative integer: its decimal digits. */
  function NatText(n: nat): (s: string)
    ensures s != [] && AllDigits(s)
  {
    if n < 10 then [DigitChar(n)] else NatText(n / 10) + [DigitChar(n % 10)]
  }

  /** `str(i)` of an integer. */
  function IntText(i: int): (s: string)
    ensures s != [] && ',' !in s
    ensures 0 <= i ==> AllDigits(s)
  {
    if i < 0 then "-" + NatText(-i) else NatText(i)
  }

  /** `str(x)` for every id. */
  function Texts(ids: seq<int>): (ts: seq<string>)
    ensures |ts| == |ids|
    ensures forall k :: 0 <= k < |ts| ==> ts[k] == IntText(ids[k])
  {
    seq(|ids|, k requires 0 <= k < |ids| => IntText(ids[k]))
  }

  /** The part of `','.join(parts)` after the first part: `",p"` for each further part. */
  function CommaPrefixed(parts: seq<string>): string {
    if parts == [] then "" else "," + parts[0] + CommaPrefixed(parts[1..])
  }

  /** `','.join(parts)`. */
  function Join(parts: seq<string>): string {
    if parts == [] then "" else parts[0] + CommaPrefixed(parts[1..])
  }

  /** `filter(lambda x: str(x) not in sub_product_ids, product_ids)`. */
  function ExcludeSubProducts(ids: seq<int>, subProductIds: seq<string>): (r: seq<int>)
    ensures forall x :: x in r <==> x in ids && IntText(x) !in subProductIds
    ensures |r| <= |ids|
  {
    if ids == [] then []
    else if IntText(ids[0]) !in subProductIds then [ids[0]] + ExcludeSubProducts(ids[1..], subProductIds)
    else ExcludeSubProducts(ids[1..], subProductIds)
  }

  /** The filter keeps order: filtering a concatenation concatenates the filtered parts. */
  lemma {:induction false} ExcludeAppend(a: seq<int>, b: seq<int>, subProductIds: seq<string>)
    ensures ExcludeSubProducts(a + b, subProductIds)
            == ExcludeSubProducts(a, subProductIds) + ExcludeSubProducts(b, subProductIds)
    decreases |a|
  {
    if a == [] {
      assert a + b == b;
    } else {
      assert (a + b)[0] == a[0];
      assert (a + b)[1..] == a[1..] + b;
      ExcludeAppend(a[1..], b, subProductIds);
    }
  }

  function Concat<T>(groups: seq<seq<T>>): seq<T> {
    if groups == [] then [] else groups[0] + Concat(groups[1..])
  }

  /** `[l[i:i+size] for i in range(0, len(l), size)]`: the groups put back together give `l`. */
  function Chunks<T>(l: seq<T>, size: nat): (groups: seq<seq<T>>)
    requires size > 0
    ensures Concat(groups) == l
    decreases |l|
  {
    if l == [] then []
    else if |l| <= size then
      assert Concat([l]) == l + Concat<T>([]);
      [l]
    else
      var rest := Chunks(l[size..], size);
      assert ([l[..size]] + rest)[1..] == rest;
      assert l[..size] + l[size..] == l;
      [l[..size]] + rest
  }

  /** Every group has 1 to `size` elements, and all but the last exactly `size`. */
  lemma {:induction false} ChunkSizes<T>(l: seq<T>, size: nat)
    requires size > 0
    ensures forall i :: 0 <= i < |Chunks(l, size)| ==> 0 < |Chunks(l, size)[i]| <= size
    ensures forall i :: 0 <= i < |Chunks(l, size)| - 1 ==> |Chunks(l, size)[i]| == size
    decreases |l|
  {
    if |l| > size {
      ChunkSizes(l[size..], size);
      var rest := Chunks(l[size..], size);
      assert Chunks(l, size) == [l[..size]] + rest;
      forall i | 0 < i < |Chunks(l, size)|
        ensures Chunks(l, size)[i] == rest[i - 1]
      {
      }
    }
  }

  /** Twenty-three ids make three batches of 10, 10 and 3. */
  lemma TwentyThreeIds(ids: seq<int>)
    requires |ids| == 23
    ensures |Chunks(ids, BatchSize)| == 3
    ensures |Chunks(ids, BatchSize)[0]| == 10 && |Chunks(ids, BatchSize)[1]| == 10
    ensures |Chunks(ids, BatchSize)[2]| == 3
  {
    assert ids[10..][10..] == ids[20..];
    assert Chunks(ids[20..], BatchSize) == [ids[20..]];
    assert Chunks(ids[10..], BatchSize) == [ids[10..][..10]] + [ids[20..]];
    assert Chunks(ids, BatchSize) == [ids[..10]] + ([ids[10..][..10]] + [ids[20..]]);
  }

  /** `','.join(str(_id) for _id in p)` for every group `p`, in order. */
  function JoinedGroups(groups: seq<seq<int>>): (bs: seq<string>)
    ensures |bs| == |groups|
    ensures forall i :: 0 <= i < |groups| ==> bs[i] == Join(Texts(groups[i]))
  {
    seq(|groups|, i requires 0 <= i < |groups| => Join(Texts(groups[i])))
  }

  /** `s.split(',')`: the pieces between commas, in order (one empty piece for `""`). */
  function Split(s: string): (parts: seq<string>)
    ensures |parts| >= 1
  {
    if s == [] then [""]
    else if s[0] == ',' then [""] + Split(s[1..])
    else
      var rest := Split(s[1..]);
      [[s[0]] + rest[0]] + rest[1..]
  }

  /** A comma-free prefix joins the first piece. */
  lemma {:induction false} SplitPrefix(a: string, t: string)
    requires ',' !in a
    ensures Split(a + t) == [a + Split(t)[0]] + Split(t)[1..]
    decreases |a|
  {
    if a != [] {
      assert (a + t)[0] == a[0] && (a + t)[1..] == a[1..] + t;
      SplitPrefix(a[1..], t);
      assert [a[0]] + (a[1..] + Split(t)[0]) == a + Split(t)[0];
    } else {
      assert a + t == t && a + Split(t)[0] == Split(t)[0];
      assert [Split(t)[0]] + Split(t)[1..] == Split(t);
    }
  }

  lemma {:induction false} SplitCommaPrefixed(parts: seq<string>)
    requires forall k :: 0 <= k < |parts| ==> ',' !in parts[k]
    ensures Split(CommaPrefixed(parts)) == [""] + parts
    decreases |parts|
  {
    if parts != [] {
      var rest := parts[1..];
      SplitCommaPrefixed(rest);
      var tail := CommaPrefixed(rest);
      assert CommaPrefixed(parts) == [','] + (parts[0] + tail);
      SplitPrefix(parts[0], tail);
      assert parts[0] + "" == parts[0];
      assert Split(parts[0] + tail) == parts;
    }
  }

  /** Splitting a join of comma-free parts gives the parts back. */
  lemma SplitJoin(parts: seq<string>)
    requires parts != []
    requires forall k :: 0 <= k < |parts| ==> ',' !in parts[k]
    ensures Split(Join(parts)) == parts
  {
    SplitCommaPrefixed(parts[1..]);
    SplitPrefix(parts[0], CommaPrefixed(parts[1..]));
    assert parts[0] + "" == parts[0];
    assert [parts[0]] + parts[1..] == parts;
  }

  /** Every segment splits back into the texts of its group, for the non-empty groups. */
  lemma JoinedGroupsSplit(groups: seq<seq<int>>)
    ensures forall i :: 0 <= i < |groups| && groups[i] != [] ==>
              Split(JoinedGroups(groups)[i]) == Texts(groups[i])
  {
    forall i | 0 <= i < |groups| && groups[i] != []
      ensures Split(JoinedGroups(groups)[i]) == Texts(groups[i])
    {
      SplitJoin(Texts(groups[i]));
    }
  }

  /** The id batches as a value: one comma-joined segment per group of kept ids. */
  function IdBatches(productIds: seq<int>, subProductIds: seq<string>): (bs: seq<string>)
    ensures |bs| == |Chunks(ExcludeSubProducts(productIds, subProductIds), BatchSize)|
  {
    JoinedGroups(Chunks(ExcludeSubProducts(productIds, subProductIds), BatchSize))
  }

  /** Each batch names, in order, the texts of 1 to 10 kept ids, all but the last batch
      exactly 10; the batches' groups put back together are all the kept ids, in order. */
  lemma IdBatchesSplit(productIds: seq<int>, subProductIds: seq<string>)
    ensures var kept := ExcludeSubProducts(productIds, subProductIds);
            var groups := Chunks(kept, BatchSize);
            var bs := IdBatches(productIds, subProductIds);
            Concat(groups) == kept &&
            forall i :: 0 <= i < |bs| ==>
              Split(bs[i]) == Texts(groups[i]) && 0 < |groups[i]| <= BatchSize &&
              (i < |bs| - 1 ==> |groups[i]| == BatchSize)
  {
    var groups := Chunks(ExcludeSubProducts(productIds, subProductIds), BatchSize);
    ChunkSizes(ExcludeSubProducts(productIds, subProductIds), BatchSize);
    JoinedGroupsSplit(groups);
  }

  /** The loop that builds `products`: cut the kept ids into groups, join each group. */
  method PlanBatches(productIds: seq<int>, subProductIds: seq<string>) returns (batches: seq<string>)
    ensures batches == IdBatches(productIds, subProductIds)
  {
    var groups := Chunks(ExcludeSubProducts(productIds, subProductIds), BatchSize);
    batches := JoinGroups(groups);
  }

  method JoinGroups(groups: seq<seq<int>>) returns (batches: seq<string>)
    ensures batches == JoinedGroups(groups)
  {
    ghost var planned := JoinedGroups(groups);
    batches := [];
    for i := 0 to |groups|
      invariant batches == planned[..i]
    {
      batches := batches + [Join(Texts(groups[i]))];
      assert batches == planned[..i + 1];
    }
    assert planned[..|groups|] == planned;
  }
}
