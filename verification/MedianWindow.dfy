/** Which timestamps the median is taken of, when there is one, and which of them it is. */
module MedianWindow {
  import opened Primitives
  import opened ChainTypes
  import opened CanonicalChain
  import opened MedianTime

  // ---------------------------------------------------------------- when it is defined

  /** Headers from a block downward, each the stored parent of the one before and one height lower,
      ending at genesis or after c of them. */
  predicate Descends(headers: Headers, path: seq<BlockHeader>, c: nat)
  {
    && 1 <= |path| <= c
    && (forall i :: 0 <= i < |path| ==> path[i].WorkShapeOk() && (path[i].IsGenesis() || path[i].height > 0))
    && (forall i :: 0 <= i < |path| - 1 ==> StepsDown(headers, path[i], path[i + 1]))
    && (path[|path| - 1].IsGenesis() || |path| == c)
  }

  predicate StepsDown(headers: Headers, upper: BlockHeader, lower: BlockHeader)
  {
    && !upper.IsGenesis()
    && upper.previousBlockHash in headers && headers[upper.previousBlockHash] == lower
    && upper.height == lower.height + 1
  }

  ghost predicate HasDescent(headers: Headers, cursor: BlockHeader, c: nat)
  {
    exists path :: path != [] && path[0] == cursor && Descends(headers, path, c)
  }

  lemma DescentStops(headers: Headers, cursor: BlockHeader, c: nat)
    requires c >= 1 && (cursor.IsGenesis() || c == 1)
    ensures HasDescent(headers, cursor, c) <==> cursor.WorkShapeOk() && (cursor.IsGenesis() || cursor.height > 0)
  {
    if cursor.WorkShapeOk() && (cursor.IsGenesis() || cursor.height > 0) {
      assert Descends(headers, [cursor], c);
    }
  }

  lemma DescentGoesOn(headers: Headers, cursor: BlockHeader, c: nat)
    requires c >= 2 && !cursor.IsGenesis()
    ensures HasDescent(headers, cursor, c) <==>
            && cursor.height > 0 && cursor.previousBlockHash in headers
            && cursor.height == headers[cursor.previousBlockHash].height + 1
            && HasDescent(headers, headers[cursor.previousBlockHash], c - 1)
  {
    if HasDescent(headers, cursor, c) {
      var path :| path != [] && path[0] == cursor && Descends(headers, path, c);
      assert |path| >= 2 && StepsDown(headers, path[0], path[1]);
      var rest := path[1..];
      forall i | 0 <= i < |rest| - 1 ensures StepsDown(headers, rest[i], rest[i + 1]) {
        assert StepsDown(headers, path[i + 1], path[(i + 1) + 1]);
      }
      assert Descends(headers, rest, c - 1);
    }
    if cursor.height > 0 && cursor.previousBlockHash in headers
       && cursor.height == headers[cursor.previousBlockHash].height + 1
       && HasDescent(headers, headers[cursor.previousBlockHash], c - 1) {
      var lower := headers[cursor.previousBlockHash];
      var rest :| rest != [] && rest[0] == lower && Descends(headers, rest, c - 1);
      var path := [cursor] + rest;
      forall i | 0 <= i < |path| - 1 ensures StepsDown(headers, path[i], path[i + 1]) {
        if i > 0 { assert StepsDown(headers, rest[i - 1], rest[i]); }
      }
      assert Descends(headers, path, c);
    }
  }

  lemma {:induction false} WalkIffDescent(headers: Headers, cursor: BlockHeader, taken: nat)
    requires taken < 11
    ensures WalkTimes(headers, cursor, taken).Ok? <==> HasDescent(headers, cursor, 11 - taken)
    decreases 11 - taken
  {
    hide HasDescent;
    WalkUnfolds(headers, cursor, taken);
    if cursor.IsGenesis() || taken == 10 {
      DescentStops(headers, cursor, 11 - taken);
    } else {
      DescentGoesOn(headers, cursor, 11 - taken);
      if cursor.previousBlockHash in headers {
        WalkIffDescent(headers, headers[cursor.previousBlockHash], taken + 1);
      }
    }
  }

  /** There is a median exactly when the stored headers lead down from the parent to genesis, or
      through eleven of them, without a gap. */
  lemma MedianDefinedIff(headers: Headers, parent: BlockHash)
    ensures MedianSpec(headers, parent).Ok? <==> parent in headers && HasDescent(headers, headers[parent], 11)
  {
    if parent in headers { WalkIffDescent(headers, headers[parent], 0); }
  }

  // ---------------------------------------------------------------- which one it is

  /** Heights of the window of c below n that carry at least m. */
  function LateHeights(chain: seq<Block>, n: nat, c: nat, m: u64): set<nat>
    requires n < |chain|
  {
    set i: nat | i <= n < i + c && chain[i].header.timestamp >= m
  }

  lemma {:induction false} CountWindow(chain: seq<Block>, n: nat, c: nat, m: u64)
    requires n < |chain| && c >= 1
    ensures |Times(chain, n, c)| == if n + 1 < c then n + 1 else c
    ensures CountFrom(Times(chain, n, c), m) == |LateHeights(chain, n, c, m)|
    decreases n
  {
    hide Times, CountFrom, LateHeights;
    TimesUnfolds(chain, n, c);
    CountOne(chain[n].header.timestamp, m);
    WindowGrows(chain, n, c, m);
    if n > 0 && c > 1 {
      CountWindow(chain, n - 1, c - 1, m);
      CountAppend([chain[n].header.timestamp], Times(chain, n - 1, c - 1), m);
    }
  }

  lemma WindowGrows(chain: seq<Block>, n: nat, c: nat, m: u64)
    requires n < |chain| && c >= 1
    ensures var here := if chain[n].header.timestamp >= m then 1 else 0;
            if n == 0 || c == 1 then |LateHeights(chain, n, c, m)| == here
            else |LateHeights(chain, n, c, m)| == here + |LateHeights(chain, n - 1, c - 1, m)|
  {
    var here: set<nat> := if chain[n].header.timestamp >= m then {n} else {};
    if n == 0 || c == 1 {
      assert LateHeights(chain, n, c, m) == here;
    } else {
      assert LateHeights(chain, n, c, m) == here + LateHeights(chain, n - 1, c - 1, m);
      assert here !! LateHeights(chain, n - 1, c - 1, m);
    }
  }

  /** On a linked branch the median reaches m exactly when the upper half, rounded up, of the last
      eleven timestamps up to block n does, or of all of them while there are fewer. */
  lemma {:induction false} MedianOfLastEleven(headers: Headers, chain: seq<Block>, n: nat, m: u64)
    requires Linked(chain) && HeadersOf(headers, chain) && n < |chain|
    ensures MedianSpec(headers, chain[n].Hash()).Ok?
    ensures var size := if n < 10 then n + 1 else 11;
            var late := set i: nat | i <= n < i + 11 && chain[i].header.timestamp >= m;
            MedianSpec(headers, chain[n].Hash()).value >= m <==> |late| >= size - size / 2
  {
    hide Linked, MedianSpec, Median, Times, CountFrom;
    MedianOnBranch(headers, chain, n);
    var ts := Times(chain, n, 11);
    MedianReaches(ts, m);
    CountWindow(chain, n, 11, m);
    assert LateHeights(chain, n, 11, m) == set i: nat | i <= n < i + 11 && chain[i].header.timestamp >= m;
  }
}
