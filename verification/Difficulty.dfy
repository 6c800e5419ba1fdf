/** The threshold a branch demands of its next block, and the timestamps it allows. */
module Difficulty {
  import opened Primitives
  import opened ChainTypes
  import opened BlockRules
  import opened CanonicalChain
  import opened MedianTime
  import opened Arithmetic
  import opened Asert

  const MAX_FUTURE_BLOCK_TIME_SECS: nat := 120

  function AnchorOk(params: PowParams, anchor: BlockHeader): bool
  {
    && anchor.WorkShapeOk()
    && !anchor.IsGenesis()
    && anchor.height == 1
    && anchor.previousBlockHash == ZeroHash
    && anchor.hashThreshold == params.initialHashThreshold
  }

  /** read_required_header_by_height. */
  function HeaderAt(headers: Headers, heights: map<nat, BlockHash>, height: u64)
    : Result<(BlockHash, BlockHeader), CoreError>
  {
    if height !in heights || heights[height] !in headers then Err(ValidationFailed)
    else if headers[heights[height]].height != height then Err(StorageFailure(Corruption))
    else Ok((heights[height], headers[heights[height]]))
  }

  function Drift(params: PowParams, anchor: BlockHeader, parent: BlockHeader): i128
    requires parent.height >= 1
  {
    DriftBound(params.targetSpacingSecs, parent.height - 1);
    parent.timestamp - anchor.timestamp - params.targetSpacingSecs * (parent.height - 1)
  }

  lemma DriftBound(spacing: u32, height: u64)
    ensures 0 <= spacing * height <= U32_MAX * U64_MAX
  {
    assert spacing * height <= U32_MAX * height;
  }

  function NextHashThreshold(params: PowParams, headers: Headers, heights: map<nat, BlockHash>, parentHash: BlockHash)
    : Result<u256, CoreError>
  {
    if parentHash !in headers then Err(ValidationFailed)
    else
      var parent := headers[parentHash];
      if !parent.WorkShapeOk() then Err(ValidationFailed)
      else if parent.IsGenesis() then Ok(params.initialHashThreshold)
      else if parent.height == 0 then Err(ValidationFailed)
      else if !(parent.height in heights && heights[parent.height] == parentHash) then
        var _ :- HeaderAt(headers, heights, parent.height);
        Err(ValidationFailed)
      else if parent.height == 1 then
        if AnchorOk(params, parent) then Ok(params.initialHashThreshold) else Err(ValidationFailed)
      else
        var (anchorHash, anchor) :- HeaderAt(headers, heights, 1);
        if !AnchorOk(params, anchor) then Err(ValidationFailed)
        else if parent.height == 2 && parent.previousBlockHash != anchorHash then Err(ValidationFailed)
        else
          match AsertUpper(params.initialHashThreshold, Drift(params, anchor, parent), params.halfLifeSecs,
            params.maxHashThreshold)
          case Some(target) => Ok(target)
          case None => Err(ValidationFailed)
  }

  /** The schedule, from the chain alone. */
  function Scheduled(params: PowParams, chain: seq<Block>, n: nat): u256
    requires params.Valid() && Linked(chain) && n < |chain|
  {
    if n <= 1 then params.initialHashThreshold
    else
      AsertIsClampedFormula(params.initialHashThreshold, Drift(params, chain[1].header, chain[n].header),
                            params.halfLifeSecs, params.maxHashThreshold);
      AsertUpper(params.initialHashThreshold, Drift(params, chain[1].header, chain[n].header),
                 params.halfLifeSecs, params.maxHashThreshold).value
  }

  /** views[i] is what block i was validated on: it holds the headers of its branch below it. */
  ghost predicate ViewsHold(views: seq<Headers>, chain: seq<Block>)
  {
    |views| == |chain| && forall i :: 1 <= i < |chain| ==> HeadersOf(views[i], chain[..i])
  }

  /** Every block carried the threshold that the branch below it demanded. */
  ghost predicate ThresholdsFollow(params: PowParams, views: seq<Headers>, chain: seq<Block>)
    requires |views| == |chain|
  {
    forall i :: 1 <= i < |chain| ==> ThresholdFollows(params, views[i], chain, i)
  }

  ghost predicate ThresholdFollows(params: PowParams, view: Headers, chain: seq<Block>, i: nat)
    requires 1 <= i < |chain|
  {
    NextHashThreshold(params, view, HeightsOf(chain[..i]), chain[i - 1].Hash()) == Ok(chain[i].header.hashThreshold)
  }

  lemma BranchFacts(headers: Headers, heights: map<nat, BlockHash>, chain: seq<Block>, i: nat)
    requires Linked(chain) && i < |chain| && HeadersOf(headers, chain) && heights == HeightsOf(chain)
    ensures chain[i].header.height == i && chain[i].header.WorkShapeOk()
    ensures chain[i].header.IsGenesis() <==> i == 0
    ensures i == 0 ==> chain[0].Hash() == ZeroHash
    ensures i > 0 ==> chain[i].header.previousBlockHash == chain[i - 1].Hash()
    ensures chain[i].Hash() in headers && headers[chain[i].Hash()] == chain[i].header
    ensures i in heights && heights[i] == chain[i].Hash()
  {
    hide StructureOk, AllocationsOk;
    if i > 0 { assert WellFormed(chain[i]); }
  }

  /** The computation needs of a linked branch only that its anchor has the initial threshold. */
  lemma ThresholdFrom(params: PowParams, headers: Headers, chain: seq<Block>, n: nat)
    requires params.Valid() && Linked(chain) && n < |chain| && HeadersOf(headers, chain)
    requires n >= 1 ==> chain[1].header.hashThreshold == params.initialHashThreshold
    ensures NextHashThreshold(params, headers, HeightsOf(chain), chain[n].Hash()) == Ok(Scheduled(params, chain, n))
  {
    hide Linked, HeadersOf, HeightsOf, AsertUpper, BlockHeader.WorkShapeOk;
    var heights := HeightsOf(chain);
    BranchFacts(headers, heights, chain, 0);
    if n >= 1 {
      BranchFacts(headers, heights, chain, 1);
      BranchFacts(headers, heights, chain, n);
      if n >= 2 { ThresholdAbove(params, headers, heights, chain, n); }
    }
  }

  /** On a linked branch whose blocks met their thresholds the computation never fails, and
      is the ASERT schedule anchored at height 1. */
  lemma ThresholdOnBranch(params: PowParams, headers: Headers, views: seq<Headers>, chain: seq<Block>, n: nat)
    requires params.Valid() && Linked(chain) && n < |chain| && HeadersOf(headers, chain)
    requires ViewsHold(views, chain) && ThresholdsFollow(params, views, chain)
    ensures NextHashThreshold(params, headers, HeightsOf(chain), chain[n].Hash()) == Ok(Scheduled(params, chain, n))
  {
    if n >= 1 { ThresholdsFollowIff(params, views, chain); }
    ThresholdFrom(params, headers, chain, n);
  }

  /** The threshold check passes along a branch exactly when every block carries the schedule of
      its parent. */
  lemma ThresholdsFollowIff(params: PowParams, views: seq<Headers>, chain: seq<Block>)
    requires params.Valid() && Linked(chain) && ViewsHold(views, chain)
    ensures ThresholdsFollow(params, views, chain) <==>
            forall i :: 1 <= i < |chain| ==> chain[i].header.hashThreshold == Scheduled(params, chain, i - 1)
  {
    hide Linked, HeadersOf, HeightsOf, NextHashThreshold, Scheduled;
    if |chain| > 1 {
      FollowsIff(params, views[1], chain, 1);
      ScheduleStarts(params, chain);
      if chain[1].header.hashThreshold == params.initialHashThreshold {
        forall i | 1 <= i < |chain|
          ensures ThresholdFollows(params, views[i], chain, i)
                  <==> chain[i].header.hashThreshold == Scheduled(params, chain, i - 1)
        {
          FollowsIff(params, views[i], chain, i);
        }
      }
    }
  }

  lemma ScheduleStarts(params: PowParams, chain: seq<Block>)
    requires params.Valid() && Linked(chain) && |chain| > 1
    ensures Scheduled(params, chain, 0) == params.initialHashThreshold
  {}

  lemma FollowsIff(params: PowParams, view: Headers, chain: seq<Block>, i: nat)
    requires params.Valid() && Linked(chain) && 1 <= i < |chain| && HeadersOf(view, chain[..i])
    requires i >= 2 ==> chain[1].header.hashThreshold == params.initialHashThreshold
    ensures ThresholdFollows(params, view, chain, i)
            <==> chain[i].header.hashThreshold == Scheduled(params, chain, i - 1)
  {
    hide HeadersOf, HeightsOf, NextHashThreshold, AsertUpper;
    LinkedPrefix(chain, i);
    hide Linked;
    ThresholdFrom(params, view, chain[..i], i - 1);
    assert Scheduled(params, chain[..i], i - 1) == Scheduled(params, chain, i - 1);
  }

  /** Without an anchor at the initial threshold nothing above it has a threshold. */
  lemma ThresholdIffAnchor(params: PowParams, headers: Headers, chain: seq<Block>, n: nat)
    requires params.Valid() && Linked(chain) && n < |chain| && HeadersOf(headers, chain)
    ensures NextHashThreshold(params, headers, HeightsOf(chain), chain[n].Hash()).Ok? <==>
            n == 0 || chain[1].header.hashThreshold == params.initialHashThreshold
  {
    hide Linked, HeadersOf, HeightsOf, AsertUpper, BlockHeader.WorkShapeOk, Drift, NextHashThreshold;
    if n == 0 || chain[1].header.hashThreshold == params.initialHashThreshold {
      ThresholdFrom(params, headers, chain, n);
    } else {
      WrongAnchorFails(params, headers, chain, n);
    }
  }

  lemma WrongAnchorFails(params: PowParams, headers: Headers, chain: seq<Block>, n: nat)
    requires params.Valid() && Linked(chain) && 1 <= n < |chain| && HeadersOf(headers, chain)
    requires chain[1].header.hashThreshold != params.initialHashThreshold
    ensures NextHashThreshold(params, headers, HeightsOf(chain), chain[n].Hash()).Err?
  {
    hide Linked, HeadersOf, HeightsOf, AsertUpper, BlockHeader.WorkShapeOk, Drift;
    var heights := HeightsOf(chain);
    BranchFacts(headers, heights, chain, 1);
    BranchFacts(headers, heights, chain, n);
  }

  /** A parent that its own height does not lead back to is not on the branch. */
  lemma OffBranchFails(params: PowParams, headers: Headers, heights: map<nat, BlockHash>, parentHash: BlockHash)
    requires parentHash in headers && !headers[parentHash].IsGenesis()
    requires var h := headers[parentHash].height; h !in heights || heights[h] != parentHash
    ensures NextHashThreshold(params, headers, heights, parentHash).Err?
  {}

  lemma ThresholdAbove(params: PowParams, headers: Headers, heights: map<nat, BlockHash>, chain: seq<Block>, n: nat)
    requires params.Valid() && Linked(chain) && 2 <= n < |chain|
    requires HeadersOf(headers, chain) && heights == HeightsOf(chain)
    requires chain[1].header.hashThreshold == params.initialHashThreshold
    ensures NextHashThreshold(params, headers, heights, chain[n].Hash()) == Ok(Scheduled(params, chain, n))
  {
    BranchFacts(headers, heights, chain, 0);
    BranchFacts(headers, heights, chain, 1);
    BranchFacts(headers, heights, chain, 2);
    BranchFacts(headers, heights, chain, n);
    AsertIsClampedFormula(params.initialHashThreshold, Drift(params, chain[1].header, chain[n].header),
                          params.halfLifeSecs, params.maxHashThreshold);
    hide Linked, HeadersOf, HeightsOf, AsertUpper, BlockHeader.WorkShapeOk, Drift, Ideal, Exponent;
    assert HeaderAt(headers, heights, 1) == Ok((chain[1].Hash(), chain[1].header));
  }

  lemma DriftIsDelay(params: PowParams, chain: seq<Block>, n: nat)
    requires Linked(chain) && 2 <= n < |chain|
    ensures chain[n].header.height == n
    ensures Drift(params, chain[1].header, chain[n].header) ==
            chain[n].header.timestamp - chain[1].header.timestamp - params.targetSpacingSecs * (n - 1)
  {
    assert chain[n].header.height == n;
    hide Linked;
  }

  /** A branch that took exactly the scheduled time keeps the initial threshold; one that took
      longer never demands a smaller one, one that was faster never a larger one. */
  lemma ScheduleSteers(params: PowParams, chain: seq<Block>, n: nat)
    requires params.Valid() && Linked(chain) && 2 <= n < |chain|
    ensures 1 <= Scheduled(params, chain, n) <= params.maxHashThreshold
    ensures var took := chain[n].header.timestamp - chain[1].header.timestamp;
            var planned := params.targetSpacingSecs * (n - 1);
            && (took == planned ==> Scheduled(params, chain, n) == params.initialHashThreshold)
            && (took >= planned ==> Scheduled(params, chain, n) >= params.initialHashThreshold)
            && (took <= planned ==> Scheduled(params, chain, n) <= params.initialHashThreshold)
  {
    hide Linked, AsertUpper, Drift, Ideal;
    DriftIsDelay(params, chain, n);
    var initial, halfLife, cap := params.initialHashThreshold, params.halfLifeSecs, params.maxHashThreshold;
    var drift := Drift(params, chain[1].header, chain[n].header);
    AsertIsClampedFormula(initial, drift, halfLife, cap);
    ZeroDrift(initial, halfLife, cap);
    if drift >= 0 { AsertMonotone(initial, 0, drift, halfLife, cap); }
    if drift <= 0 { AsertMonotone(initial, drift, 0, halfLife, cap); }
  }

  /** Of two branches over the same block 1 the one that reached height n later never demands the
      smaller threshold. */
  lemma LaterNeverHarder(params: PowParams, xs: seq<Block>, ys: seq<Block>, n: nat)
    requires params.Valid() && Linked(xs) && Linked(ys) && 2 <= n < |xs| && n < |ys|
    requires xs[1] == ys[1] && xs[n].header.timestamp <= ys[n].header.timestamp
    ensures Scheduled(params, xs, n) <= Scheduled(params, ys, n)
  {
    hide Linked, AsertUpper, Drift, Ideal;
    DriftIsDelay(params, xs, n);
    DriftIsDelay(params, ys, n);
    AsertMonotone(params.initialHashThreshold, Drift(params, xs[1].header, xs[n].header),
                  Drift(params, ys[1].header, ys[n].header), params.halfLifeSecs, params.maxHashThreshold);
  }

  /** A branch that is q half-lives late has its threshold scaled by 2^q, rounded down and kept in
      [1, max]; q is negative when it is early. */
  lemma DelayDoubles(params: PowParams, chain: seq<Block>, n: nat, q: int)
    requires params.Valid() && Linked(chain) && 2 <= n < |chain|
    requires chain[n].header.timestamp - chain[1].header.timestamp
             == params.targetSpacingSecs * (n - 1) + q * params.halfLifeSecs
    ensures var initial := params.initialHashThreshold;
            var scaled := if q >= 0 then initial * Pow2(q) else initial / Pow2(-q);
            Scheduled(params, chain, n) ==
            if scaled == 0 then 1 else if scaled > params.maxHashThreshold then params.maxHashThreshold else scaled
  {
    hide Linked, AsertUpper, Drift, Ideal, Pow2;
    DriftIsDelay(params, chain, n);
    WholeHalfLivesDouble(params.initialHashThreshold, q, params.halfLifeSecs, params.maxHashThreshold);
  }

  lemma ZeroDrift(initial: u256, halfLife: u32, cap: u256)
    requires ValidInput(initial, halfLife, cap)
    ensures AsertUpper(initial, 0, halfLife, cap) == Some(initial)
  {
    hide AsertUpper;
    WholeHalfLivesDouble(initial, 0, halfLife, cap);
  }

  // ---------------------------------------------------------------- timestamps

  function SaturatingAdd(a: u64, b: nat): u64 { if a + b <= U64_MAX then a + b else U64_MAX }

  /** The header rule: later than the median time past, and not too far in the future. */
  predicate TimestampOk(t: u64, median: u64, now: u64)
  {
    t > median && t <= SaturatingAdd(now, MAX_FUTURE_BLOCK_TIME_SECS)
  }

  function MiningTimestamp(now: u64, median: u64): Option<u64>
  {
    match NextU64(median)
    case None => None
    case Some(minimum) =>
      var t := if now >= minimum then now else minimum;
      if t > SaturatingAdd(now, MAX_FUTURE_BLOCK_TIME_SECS) then None else Some(t)
  }

  /** The miner takes the earliest allowed timestamp that is not before now, and gives up only when
      no timestamp is allowed. */
  lemma MinerTimestampExact(now: u64, median: u64)
    ensures match MiningTimestamp(now, median)
            case Some(t) =>
              TimestampOk(t, median, now) && t >= now && forall e: u64 :: now <= e < t ==> !TimestampOk(e, median, now)
            case None => forall t: u64 :: !TimestampOk(t, median, now)
    ensures forall t: u64 :: TimestampOk(t, median, now) <==> median < t <= now + 120
  {
    if NextU64(median) == None {
      assert median == U64_MAX;
    }
  }

  ghost predicate TimestampChecked(headers: Headers, chain: seq<Block>, i: nat, now: u64)
    requires 1 <= i < |chain|
  {
    var median := MedianSpec(headers, chain[i - 1].Hash());
    median.Ok? && TimestampOk(chain[i].header.timestamp, median.value, now)
  }

  /** Chains accepted under the timestamp rule advance in the sense of MedianTime. */
  lemma AcceptedTimesAdvance(headers: Headers, chain: seq<Block>, nows: seq<u64>)
    requires Linked(chain) && HeadersOf(headers, chain) && |nows| == |chain|
    requires forall i :: 1 <= i < |chain| ==> TimestampChecked(headers, chain, i, nows[i])
    ensures TimesAdvance(chain)
  {
    hide Linked, Median, Times, MedianSpec;
    forall i | 1 <= i < |chain| ensures chain[i].header.timestamp > Median(Times(chain, i - 1, SPAN)) {
      MedianOnBranch(headers, chain, i - 1);
      assert TimestampChecked(headers, chain, i, nows[i]);
    }
  }
}
