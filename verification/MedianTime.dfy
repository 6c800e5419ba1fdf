/** Median time past: the upper median of up to eleven ancestors. */
module MedianTime {
  import opened Primitives
  import opened ChainTypes
  import opened BlockRules
  import opened Ledger
  import opened CanonicalChain

  const SPAN: nat := 11

  // ---------------------------------------------------------------- sorting

  function InsertSorted(s: seq<u64>, x: u64): (r: seq<u64>)
    ensures |r| == |s| + 1
  {
    if s == [] || s[|s| - 1] <= x then s + [x]
    else InsertSorted(s[..|s| - 1], x) + [s[|s| - 1]]
  }

  function Sorted(s: seq<u64>): (r: seq<u64>)
    ensures |r| == |s|
  {
    if s == [] then [] else InsertSorted(Sorted(s[..|s| - 1]), s[|s| - 1])
  }

  /** Element |ts| / 2 of the sorted list. */
  function Median(ts: seq<u64>): u64
    requires ts != []
  {
    Sorted(ts)[|ts| / 2]
  }

  /** Sorts the first n elements in place. */
  method SortPrefix(a: array<u64>, n: nat)
    requires n <= a.Length
    modifies a
    ensures a[..n] == Sorted(old(a[..n])) && a[n..] == old(a[n..])
  {
    for i := 0 to n
      invariant a[..i] == Sorted(old(a[..])[..i])
      invariant a[i..] == old(a[i..])
    {
      InsertInPlace(a, i);
      assert old(a[..])[..i + 1][..i] == old(a[..])[..i];
    }
    assert old(a[..])[..n] == old(a[..n]);
  }

  /** Position j is where x belongs: everything from j on is larger, and s[j - 1] is not. */
  lemma {:induction false} InsertSplits(s: seq<u64>, x: u64, j: nat)
    requires j <= |s| && (j == 0 || s[j - 1] <= x)
    requires forall k :: j <= k < |s| ==> s[k] > x
    ensures InsertSorted(s, x) == s[..j] + [x] + s[j..]
  {
    if j < |s| {
      InsertSplits(s[..|s| - 1], x, j);
      assert s[j..] == s[..|s| - 1][j..] + [s[|s| - 1]];
    }
  }

  method InsertInPlace(a: array<u64>, i: nat)
    requires i < a.Length
    modifies a
    ensures a[..i + 1] == InsertSorted(old(a[..i]), old(a[i])) && a[i + 1..] == old(a[i + 1..])
  {
    hide InsertSorted;
    var x, j := a[i], i;
    while j > 0 && a[j - 1] > x
      invariant j <= i
      invariant forall k :: 0 <= k < a.Length && (k < j || k > i) ==> a[k] == old(a[k])
      invariant forall k :: j < k <= i ==> a[k] == old(a[k - 1])
      invariant forall k :: j < k <= i ==> a[k] > x
    {
      a[j] := a[j - 1];
      j := j - 1;
    }
    a[j] := x;
    ghost var s := old(a[..i]);
    assert forall k :: j <= k < i ==> s[k] == a[k + 1];
    InsertSplits(s, x, j);
    ghost var inserted := s[..j] + [x] + s[j..];
    forall k | 0 <= k <= i ensures a[k] == inserted[k] {
      if k < j { assert inserted[k] == s[k]; } else if k > j { assert inserted[k] == s[k - 1]; }
    }
    assert a[..i + 1] == inserted;
  }

  // ---------------------------------------------------------------- what the median means

  function CountFrom(ts: seq<u64>, m: u64): nat
  {
    if ts == [] then 0 else CountFrom(ts[..|ts| - 1], m) + (if ts[|ts| - 1] >= m then 1 else 0)
  }

  lemma {:induction false} CountAppend(s: seq<u64>, t: seq<u64>, m: u64)
    ensures CountFrom(s + t, m) == CountFrom(s, m) + CountFrom(t, m)
  {
    if t == [] {
      assert s + t == s;
    } else {
      assert (s + t)[..|s + t| - 1] == s + t[..|t| - 1];
      CountAppend(s, t[..|t| - 1], m);
    }
  }

  lemma {:induction false} CountOne(x: u64, m: u64)
    ensures CountFrom([x], m) == if x >= m then 1 else 0
  {
    assert [x][..0] == [];
  }

  lemma {:induction false} CountInsert(s: seq<u64>, x: u64, m: u64)
    ensures CountFrom(InsertSorted(s, x), m) == CountFrom(s, m) + (if x >= m then 1 else 0)
  {
    if s == [] || s[|s| - 1] <= x {
      assert (s + [x])[..|s|] == s;
    } else {
      CountInsert(s[..|s| - 1], x, m);
      CountAppend(InsertSorted(s[..|s| - 1], x), [s[|s| - 1]], m);
      CountOne(s[|s| - 1], m);
    }
  }

  lemma {:induction false} CountSorted(s: seq<u64>, m: u64)
    ensures CountFrom(Sorted(s), m) == CountFrom(s, m)
  {
    if s != [] {
      CountSorted(s[..|s| - 1], m);
      CountInsert(Sorted(s[..|s| - 1]), s[|s| - 1], m);
    }
  }

  predicate Ordered(s: seq<u64>) { forall i, j :: 0 <= i < j < |s| ==> s[i] <= s[j] }

  lemma {:induction false} InsertOrdered(s: seq<u64>, x: u64)
    requires Ordered(s)
    ensures Ordered(InsertSorted(s, x))
    ensures forall y :: y in InsertSorted(s, x) <==> y in s || y == x
  {
    if s != [] && s[|s| - 1] > x {
      var before := s[..|s| - 1];
      InsertOrdered(before, x);
      assert s == before + [s[|s| - 1]];
      forall i | 0 <= i < |before| + 1 ensures InsertSorted(before, x)[i] <= s[|s| - 1] {
        assert InsertSorted(before, x)[i] in InsertSorted(before, x);
      }
    }
  }

  lemma {:induction false} SortedOrdered(s: seq<u64>)
    ensures Ordered(Sorted(s))
  {
    if s != [] {
      SortedOrdered(s[..|s| - 1]);
      InsertOrdered(Sorted(s[..|s| - 1]), s[|s| - 1]);
    }
  }

  /** In an ordered list, element k reaches m exactly when at least |s| - k elements do. */
  lemma {:induction false} OrderedRank(s: seq<u64>, k: nat, m: u64)
    requires Ordered(s) && k < |s|
    ensures s[k] >= m <==> CountFrom(s, m) >= |s| - k
    ensures CountFrom(s, m) <= |s|
  {
    var before, top := s[..|s| - 1], s[|s| - 1];
    if before == [] {
      assert CountFrom(before, m) == 0;
    } else if k < |before| {
      OrderedRank(before, k, m);
      assert s[k] <= top;
    } else {
      OrderedRank(before, |before| - 1, m);
      NoneAbove(before, m, top);
    }
  }

  lemma {:induction false} NoneAbove(s: seq<u64>, m: u64, top: u64)
    requires forall i :: 0 <= i < |s| ==> s[i] <= top
    ensures top < m ==> CountFrom(s, m) == 0
  {
    if s != [] { NoneAbove(s[..|s| - 1], m, top); }
  }

  /** The median reaches m exactly when at least the upper half of the list does. */
  lemma {:induction false} MedianReaches(ts: seq<u64>, m: u64)
    requires ts != []
    ensures Median(ts) >= m <==> CountFrom(ts, m) >= |ts| - |ts| / 2
  {
    SortedOrdered(ts);
    OrderedRank(Sorted(ts), |ts| / 2, m);
    CountSorted(ts, m);
  }

  /** Adding a value above the median, with or without dropping the oldest, cannot lower it. */
  lemma MedianOfNextWindow(x: u64, kept: seq<u64>, dropped: seq<u64>)
    requires kept + dropped != [] && |dropped| <= 1
    requires x > Median(kept + dropped)
    ensures Median([x] + kept) >= Median(kept + dropped)
  {
    var m := Median(kept + dropped);
    MedianReaches(kept + dropped, m);
    MedianReaches([x] + kept, m);
    CountAppend(kept, dropped, m);
    CountAppend([x], kept, m);
    CountOne(x, m);
    if dropped != [] { CountOne(dropped[0], m); assert dropped == [dropped[0]]; }
  }

  // ---------------------------------------------------------------- the walk

  type Headers = map<BlockHash, BlockHeader>

  /** Timestamps from cursor downwards; `taken` were collected before it. */
  function WalkTimes(headers: Headers, cursor: BlockHeader, taken: nat): (r: Result<seq<u64>, CoreError>)
    requires taken < SPAN
    ensures r.Ok? ==> 1 <= |r.value| <= SPAN - taken
    decreases SPAN - taken
  {
    if !cursor.WorkShapeOk() then Err(ValidationFailed)
    else if !cursor.IsGenesis() && cursor.height == 0 then Err(ValidationFailed)
    else if cursor.IsGenesis() || taken + 1 == SPAN then Ok([cursor.timestamp])
    else if cursor.previousBlockHash !in headers then Err(ValidationFailed)
    else
      var previous := headers[cursor.previousBlockHash];
      if NextU64(previous.height) != Some(cursor.height) then Err(ValidationFailed)
      else
        var older :- WalkTimes(headers, previous, taken + 1);
        Ok([cursor.timestamp] + older)
  }

  /** One stop of the walk: it fails, ends, or continues at the parent. */
  lemma WalkUnfolds(headers: Headers, cursor: BlockHeader, taken: nat)
    requires taken < SPAN
    ensures !cursor.WorkShapeOk() || (!cursor.IsGenesis() && cursor.height == 0) ==>
              WalkTimes(headers, cursor, taken) == Err(ValidationFailed)
    ensures cursor.WorkShapeOk() && (cursor.IsGenesis() || (cursor.height != 0 && taken + 1 == SPAN)) ==>
              WalkTimes(headers, cursor, taken) == Ok([cursor.timestamp])
    ensures cursor.WorkShapeOk() && !cursor.IsGenesis() && cursor.height != 0 && taken + 1 < SPAN ==>
              WalkTimes(headers, cursor, taken) ==
              if cursor.previousBlockHash !in headers
                 || NextU64(headers[cursor.previousBlockHash].height) != Some(cursor.height)
              then Err(ValidationFailed)
              else match WalkTimes(headers, headers[cursor.previousBlockHash], taken + 1)
                   case Ok(older) => Ok([cursor.timestamp] + older)
                   case Err(e) => Err(e)
  {
    hide BlockHeader.WorkShapeOk;
  }

  function MedianSpec(headers: Headers, parent: BlockHash): Result<u64, CoreError>
  {
    if parent !in headers then Err(ValidationFailed)
    else
      var ts :- WalkTimes(headers, headers[parent], 0);
      Ok(Median(ts))
  }

  method MedianTimePast(headers: Headers, parent: BlockHash) returns (r: Result<u64, CoreError>)
    ensures r == MedianSpec(headers, parent)
  {
    if parent !in headers { return Err(ValidationFailed); }
    var timestamps := new u64[SPAN](_ => 0);
    var count :- FillTimes(headers, headers[parent], timestamps);
    SortPrefix(timestamps, count);
    r := Ok(timestamps[..count][count / 2]);
  }

  method FillTimes(headers: Headers, from: BlockHeader, timestamps: array<u64>) returns (r: Result<nat, CoreError>)
    requires timestamps.Length == SPAN
    modifies timestamps
    ensures match WalkTimes(headers, from, 0)
            case Ok(ts) => r == Ok(|ts|) && timestamps[..|ts|] == ts
            case Err(e) => r == Err(e)
  {
    hide BlockHeader.WorkShapeOk, WalkTimes, NextU64;
    var count, cursor := 0, from;
    ghost var all := WalkTimes(headers, from, 0);
    if all.Ok? { assert timestamps[..0] + all.value == all.value; }
    while true
      invariant 0 <= count < SPAN
      invariant all == match WalkTimes(headers, cursor, count)
                       case Ok(older) => Ok(timestamps[..count] + older)
                       case Err(e) => Err(e)
      decreases SPAN - count
    {
      WalkUnfolds(headers, cursor, count);
      if !cursor.WorkShapeOk() { return Err(ValidationFailed); }
      if !cursor.IsGenesis() && cursor.height == 0 { return Err(ValidationFailed); }
      ghost var before := timestamps[..count];
      timestamps[count] := cursor.timestamp;
      count := count + 1;
      assert timestamps[..count] == before + [cursor.timestamp];
      if cursor.IsGenesis() || count == SPAN { break; }
      if cursor.previousBlockHash !in headers { return Err(ValidationFailed); }
      var previous := headers[cursor.previousBlockHash];
      if NextU64(previous.height) != Some(cursor.height) { return Err(ValidationFailed); }
      ghost var older := WalkTimes(headers, previous, count);
      if older.Ok? { assert before + ([cursor.timestamp] + older.value) == timestamps[..count] + older.value; }
      cursor := previous;
    }
    r := Ok(count);
  }

  // ---------------------------------------------------------------- along a branch

  /** Timestamps of chain[n], chain[n - 1], ..., at most c of them. */
  function Times(chain: seq<Block>, n: nat, c: nat): (ts: seq<u64>)
    requires n < |chain| && c >= 1
    ensures ts != []
    decreases n
  {
    if n == 0 || c == 1 then [chain[n].header.timestamp]
    else [chain[n].header.timestamp] + Times(chain, n - 1, c - 1)
  }

  predicate HeadersOf(headers: Headers, chain: seq<Block>)
  {
    forall i :: 0 <= i < |chain| ==> chain[i].Hash() in headers && headers[chain[i].Hash()] == chain[i].header
  }

  lemma {:induction false} WalkFollowsChain(headers: Headers, chain: seq<Block>, n: nat, taken: nat)
    requires Linked(chain) && HeadersOf(headers, chain) && n < |chain| && taken < SPAN
    ensures WalkTimes(headers, chain[n].header, taken) == Ok(Times(chain, n, SPAN - taken))
    decreases n
  {
    hide StructureOk, AllocationsOk;
    assert chain[n].header.height == n;
    if n == 0 {
      assert GenesisOk(chain[0]);
    } else {
      assert WellFormed(chain[n]) && chain[n - 1].header.height == n - 1;
      if taken + 1 < SPAN { WalkFollowsChain(headers, chain, n - 1, taken + 1); }
    }
  }

  /** On a linked branch the walk never fails and takes the median of the last eleven. */
  lemma {:induction false} MedianOnBranch(headers: Headers, chain: seq<Block>, n: nat)
    requires Linked(chain) && HeadersOf(headers, chain) && n < |chain|
    ensures MedianSpec(headers, chain[n].Hash()) == Ok(Median(Times(chain, n, SPAN)))
  {
    hide WellFormedChain;
    WalkFollowsChain(headers, chain, n, 0);
  }

  lemma TimesUnfolds(chain: seq<Block>, n: nat, c: nat)
    requires n < |chain| && c >= 1
    ensures Times(chain, n, c) ==
            if n == 0 || c == 1 then [chain[n].header.timestamp]
            else [chain[n].header.timestamp] + Times(chain, n - 1, c - 1)
  {}

  /** A window one longer keeps the shorter one in front and adds at most one older value. */
  lemma {:induction false} LongerWindow(chain: seq<Block>, n: nat, c: nat) returns (dropped: seq<u64>)
    requires n < |chain| && c >= 1
    ensures Times(chain, n, c + 1) == Times(chain, n, c) + dropped && |dropped| <= 1
    decreases n
  {
    hide Times;
    TimesUnfolds(chain, n, c);
    TimesUnfolds(chain, n, c + 1);
    if n == 0 {
      dropped := [];
    } else if c == 1 {
      TimesUnfolds(chain, n - 1, 1);
      dropped := Times(chain, n - 1, 1);
    } else {
      dropped := LongerWindow(chain, n - 1, c - 1);
    }
  }

  /** The rule of the header checks: each block is later than its parent's median time past. */
  predicate TimesAdvance(chain: seq<Block>)
  {
    forall i :: 1 <= i < |chain| ==> chain[i].header.timestamp > Median(Times(chain, i - 1, SPAN))
  }

  /** Median time past never decreases along such a branch, while the window grows and
      after it slides. */
  lemma {:induction false} MedianNeverDecreases(chain: seq<Block>, i: nat, j: nat)
    requires TimesAdvance(chain) && i <= j < |chain|
    ensures Median(Times(chain, i, SPAN)) <= Median(Times(chain, j, SPAN))
    decreases j
  {
    hide Median, Times;
    if i < j {
      MedianNeverDecreases(chain, i, j - 1);
      NextMedian(chain, j);
    }
  }

  lemma NextMedian(chain: seq<Block>, j: nat)
    requires 1 <= j < |chain| && chain[j].header.timestamp > Median(Times(chain, j - 1, SPAN))
    ensures Median(Times(chain, j - 1, SPAN)) <= Median(Times(chain, j, SPAN))
  {
    assert Times(chain, j, SPAN) == [chain[j].header.timestamp] + Times(chain, j - 1, SPAN - 1);
    hide Median, Times;
    var kept := Times(chain, j - 1, SPAN - 1);
    var dropped := LongerWindow(chain, j - 1, SPAN - 1);
    MedianOfNextWindow(chain[j].header.timestamp, kept, dropped);
  }
}
