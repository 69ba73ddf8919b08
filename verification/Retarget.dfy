/**
 * Retargeting.  Source: src/main.cpp, GetLastBlockIndex, DarkGravityWave3,
 * DarkGravityWave3fix and GetNextPosTargetRequired.  A branch is a sequence of
 * blocks, genesis first, so that a block's height is its position.
 */
module Retarget {
  import opened Bytes
  import opened Compact
  import M = MedianTime

  type Bits = c: nat | c < 0x1_0000_0000

  datatype Blk = Blk(bits: Bits, time: nat, isStake: bool)

  const STAKE_TARGET_SPACING: nat := 60
  const PAST_BLOCKS: nat := 24
  const DAY: nat := 60 * 60 * 24
  /** bnProofOfWorkLimit and bnProofOfStakeLimit: 2^236 - 1. */
  const LIMIT: nat := 0xfff_ffff_ffff_ffff_ffff_ffff_ffff_ffff_ffff_ffff_ffff_ffff_ffff_ffff_ffff

  function Min(a: int, b: int): int { if a <= b then a else b }

  /** Division of big numbers truncates toward zero. */
  function TruncDiv(a: int, b: int): int
    requires b > 0
  {
    if a >= 0 then a / b else -(-a / b)
  }

  function LastIndex(chain: seq<Blk>, k: nat, stake: bool): (r: nat)
    requires k < |chain|
    ensures r <= k && (r == 0 || chain[r].isStake == stake) && forall i :: r < i <= k ==> chain[i].isStake != stake
  {
    if k == 0 || chain[k].isStake == stake then k else LastIndex(chain, k - 1, stake)
  }

  method GetLastBlockIndex(chain: seq<Blk>, k: nat, stake: bool) returns (r: nat)
    requires k < |chain|
    ensures r == LastIndex(chain, k, stake)
  {
    r := k;
    while r > 0 && chain[r].isStake != stake
      invariant r <= k && LastIndex(chain, r, stake) == LastIndex(chain, k, stake)
    {
      r := r - 1;
    }
  }

  // ----- Averages and time spans of a list of blocks, newest first -----

  /** The running average: the newest target has the weight of two. */
  function Average(targets: seq<int>): int {
    var n := |targets|;
    if n == 0 then 0 else NextAverage(Average(targets[..n - 1]), targets[n - 1], n - 1)
  }

  /** One more target after n of them. */
  function NextAverage(average: int, t: int, n: nat): int {
    if n == 0 then t else TruncDiv(average * (n + 1) + t, n + 2)
  }

  function Minus(a: int, b: int): int { a - b }

  /** Sum of time differences; a block time of zero suppresses the difference after it. */
  function Span(times: seq<nat>): int {
    var n := |times|;
    if n <= 1 then 0
    else Span(times[..n - 1]) + if times[n - 2] > 0 then Minus(times[n - 2], times[n - 1]) else 0
  }

  /** What the suppressed differences would have taken off. */
  function Suppressed(times: seq<nat>): nat {
    var n := |times|;
    if n <= 1 then 0
    else Suppressed(times[..n - 1]) + if times[n - 2] > 0 then 0 else times[n - 1]
  }

  lemma {:induction false} SpanIs(times: seq<nat>)
    requires times != []
    ensures Span(times) == Minus(times[0], times[|times| - 1]) + Suppressed(times)
    decreases |times|
  {
    if |times| > 1 { SpanIs(times[..|times| - 1]); }
  }

  lemma {:induction false} SuppressedIsZero(times: seq<nat>)
    ensures Suppressed(times) == 0 <==> forall i :: 0 <= i < |times| - 1 && times[i] == 0 ==> times[i + 1] == 0
    decreases |times|
  {
    var n := |times|;
    if n > 1 {
      var init := times[..n - 1];
      SuppressedIsZero(init);
      if Suppressed(times) == 0 {
        forall i | 0 <= i < n - 1 && times[i] == 0 ensures times[i + 1] == 0 {
          if i < n - 2 { assert init[i] == 0; assert init[i + 1] == 0; }
        }
      }
      if forall i :: 0 <= i < n - 1 && times[i] == 0 ==> times[i + 1] == 0 {
        forall i | 0 <= i < |init| - 1 && init[i] == 0 ensures init[i + 1] == 0 { assert times[i] == 0; }
        assert times[n - 2] == 0 ==> times[n - 2 + 1] == 0;
      }
    }
  }

  /** The sum telescopes to newest minus oldest exactly when no zero time is followed by a non-zero one. */
  lemma SpanTelescopes(times: seq<nat>)
    requires times != []
    ensures Span(times) == Minus(times[0], times[|times| - 1])
            <==> forall i :: 0 <= i < |times| - 1 && times[i] == 0 ==> times[i + 1] == 0
  {
    SpanIs(times);
    SuppressedIsZero(times);
  }

  /** An average of targets in a range is in the range. */
  lemma {:induction false} AverageInRange(targets: seq<int>, lo: nat, hi: nat)
    requires targets != [] && forall i :: 0 <= i < |targets| ==> lo <= targets[i] <= hi
    ensures lo <= Average(targets) <= hi
    decreases |targets|
  {
    hide NextAverage;
    var n := |targets| - 1;
    if n > 0 { AverageInRange(targets[..n], lo, hi); }
    NextInRange(Average(targets[..n]), targets[n], n, lo, hi);
  }

  lemma NextInRange(a: int, t: int, n: nat, lo: nat, hi: nat)
    requires n > 0 ==> lo <= a <= hi
    requires lo <= t <= hi
    ensures lo <= NextAverage(a, t, n) <= hi
  {
    if n > 0 {
      var k := n + 1;
      MulLe(k, lo, a);
      MulLe(k, a, hi);
      MulMono(0, a, 0, k);
      assert lo * (k + 1) == k * lo + lo && hi * (k + 1) == k * hi + hi;
      DivBounds(a * k + t, k + 1, lo, hi);
    }
  }

  lemma DivBounds(x: int, d: nat, lo: int, hi: int)
    requires d > 0 && lo * d <= x <= hi * d
    ensures lo <= x / d <= hi
  {
    var q := x / d;
    assert x == d * q + x % d;
    if q < lo { MulStep(q, lo, d); }
    if q > hi { MulStep(hi, q, d); }
  }

  // ----- DarkGravityWave -----

  /**
   * The block looked at after height k > 0: the one below, or with skip the nearest one below that
   * is not proof of stake.
   */
  function Below(chain: seq<Blk>, k: nat, skip: bool): (r: nat)
    requires 0 < k < |chain|
    ensures r < k
  {
    if skip then LastIndex(chain, k - 1, false) else k - 1
  }

  /** Up to n blocks above the genesis block, from height k down. */
  function Counted(chain: seq<Blk>, k: nat, n: nat, skip: bool): (s: seq<Blk>)
    requires k < |chain|
    ensures |s| <= n
    decreases n
  {
    if k == 0 || n == 0 then [] else [chain[k]] + Counted(chain, Below(chain, k, skip), n - 1, skip)
  }

  function Targets(s: seq<Blk>): (r: seq<int>)
    ensures |r| == |s| && forall i :: 0 <= i < |s| ==> r[i] == SetCompact(s[i].bits)
  {
    seq(|s|, i requires 0 <= i < |s| => SetCompact(s[i].bits))
  }

  function Times(s: seq<Blk>): (r: seq<nat>)
    ensures |r| == |s| && forall i :: 0 <= i < |s| ==> r[i] == s[i].time
  {
    seq(|s|, i requires 0 <= i < |s| => s[i].time)
  }

  function Clamp(span: int, aim: nat): int {
    if span < aim / 3 then aim / 3 else if span > aim * 3 then aim * 3 else span
  }

  /** spacing is nTargetSpacing, which the first retarget rule also sets. */
  function Scale(average: int, span: int, count: nat, spacing: nat): int
    requires count > 0 && spacing > 0
  {
    AimPositive(count, spacing);
    Min(TruncDiv(average * Clamp(span, count * spacing), count * spacing), LIMIT)
  }

  lemma AimPositive(count: nat, spacing: nat)
    requires count > 0 && spacing > 0
    ensures count * spacing > 0
  {
  }

  /** The newest block that counts. */
  function Newest(chain: seq<Blk>, skip: bool): nat
    requires chain != []
  {
    if skip then LastIndex(chain, |chain| - 1, false) else |chain| - 1
  }

  lemma {:induction false} CountedSome(chain: seq<Blk>, k: nat, n: nat, skip: bool)
    requires 0 < k < |chain| && n > 0
    ensures Counted(chain, k, n, skip) != []
    ensures !skip && k >= n ==> |Counted(chain, k, n, skip)| == n
    ensures !skip && k >= n ==> forall i :: 0 <= i < n ==> Counted(chain, k, n, skip)[i] == chain[k - i]
    ensures skip && !chain[k].isStake ==>
              forall i :: 0 <= i < |Counted(chain, k, n, skip)| ==> !Counted(chain, k, n, skip)[i].isStake
    decreases n
  {
    var b := Below(chain, k, skip);
    if b > 0 && n > 1 { CountedSome(chain, b, n - 1, skip); }
  }

  /** The target before it is encoded. */
  function WaveTarget(chain: seq<Blk>, skip: bool, spacing: nat): int
    requires spacing > 0
  {
    if chain == [] || Newest(chain, skip) < PAST_BLOCKS then LIMIT
    else
      var s := Counted(chain, Newest(chain, skip), PAST_BLOCKS, skip);
      CountedSome(chain, Newest(chain, skip), PAST_BLOCKS, skip);
      Scale(Average(Targets(s)), Span(Times(s)), |s|, spacing)
  }

  lemma ScaleBounds(average: nat, span: int, count: nat, spacing: nat, lo: nat, hi: nat)
    requires count > 0 && spacing > 0 && spacing % 3 == 0 && lo <= average <= hi
    ensures Min(lo / 3, LIMIT) <= Scale(average, span, count, spacing) <= Min(3 * hi, LIMIT)
  {
    AimPositive(count, spacing);
    var third := count * (spacing / 3);
    var aim := count * spacing;
    assert aim == 3 * third;
    var actual := Clamp(span, aim);
    MulMono(lo, average, third, actual);
    MulMono(average, hi, actual, 9 * third);
    ThirdOf(lo, third);
    assert hi * (9 * third) == 3 * hi * aim;
    DivBounds(average * actual, aim, lo / 3, 3 * hi);
  }

  lemma ThirdOf(lo: nat, c: nat)
    ensures lo / 3 * (3 * c) <= lo * c
  {
    var q := lo / 3;
    assert q * (3 * c) == 3 * q * c;
    MulMono(3 * q, lo, c, c);
  }

  lemma MulMono(a: nat, b: nat, c: nat, d: nat)
    requires a <= b && c <= d
    ensures a * c <= b * d
  {
    assert b * d - a * c == (b - a) * d + a * (d - c);
  }

  /** The targets of the blocks that count. */
  function UsedTargets(chain: seq<Blk>, skip: bool): seq<int>
    requires chain != []
  {
    Targets(Counted(chain, Newest(chain, skip), PAST_BLOCKS, skip))
  }

  /** Both forms stay between a third and three times the targets used, and under the limit. */
  lemma WaveBounds(chain: seq<Blk>, skip: bool, spacing: nat, lo: nat, hi: nat)
    requires chain != [] && Newest(chain, skip) >= PAST_BLOCKS && spacing > 0 && spacing % 3 == 0
    requires var used := UsedTargets(chain, skip); forall i :: 0 <= i < |used| ==> lo <= used[i] <= hi
    ensures Min(lo / 3, LIMIT) <= WaveTarget(chain, skip, spacing) <= Min(3 * hi, LIMIT)
  {
    hide Counted, Scale, Average, Span;
    var k := Newest(chain, skip);
    CountedSome(chain, k, PAST_BLOCKS, skip);
    var s := Counted(chain, k, PAST_BLOCKS, skip);
    var used := UsedTargets(chain, skip);
    assert used == Targets(s);
    hide Targets, Times;
    AverageInRange(used, lo, hi);
    ScaleBounds(Average(Targets(s)), Span(Times(s)), |s|, spacing, lo, hi);
  }

  lemma {:induction false} CountedFrom(chain: seq<Blk>, k: nat, n: nat, skip: bool)
    requires k < |chain|
    ensures forall b :: b in Counted(chain, k, n, skip) ==> b in chain
    decreases n
  {
    if k > 0 && n > 0 { CountedFrom(chain, Below(chain, k, skip), n - 1, skip); }
  }

  /** The span telescopes on every branch that passed the timestamp check from a positive genesis time. */
  lemma AcceptedTelescopes(chain: seq<Blk>, skip: bool)
    requires chain != [] && chain[0].time > 0 && M.Accepted(Times(chain))
    requires Counted(chain, Newest(chain, skip), PAST_BLOCKS, skip) != []
    ensures var times := Times(Counted(chain, Newest(chain, skip), PAST_BLOCKS, skip));
            Span(times) == Minus(times[0], times[|times| - 1])
  {
    hide Counted, M.Accepted, M.MedianTimePast;
    var s := Counted(chain, Newest(chain, skip), PAST_BLOCKS, skip);
    CountedFrom(chain, Newest(chain, skip), PAST_BLOCKS, skip);
    forall i | 0 <= i < |s| ensures s[i].time > 0 {
      var b := s[i];
      assert b in s;
      var k :| 0 <= k < |chain| && chain[k] == b;
      PositiveTime(chain, k);
    }
    SpanTelescopes(Times(s));
  }

  lemma PositiveTime(chain: seq<Blk>, k: nat)
    requires k < |chain| && chain[0].time > 0 && M.Accepted(Times(chain))
    ensures chain[k].time > 0
  {
    var times := Times(chain);
    if k > 0 {
      M.LaterThanEveryMedian(times, 0, k);
      FirstMedian(times);
    }
  }

  lemma FirstMedian(times: seq<int>)
    requires times != []
    ensures M.MedianTimePast(times, 0) == times[0]
  {
    assert M.Window(times, 0) == [times[0]];
    M.MedianIsMiddle([times[0]]);
  }

  lemma {:induction false} ConstantAverage(targets: seq<int>, t: nat)
    requires targets != [] && forall i :: 0 <= i < |targets| ==> targets[i] == t
    ensures Average(targets) == t
  {
    AverageInRange(targets, t, t);
  }

  /**
   * 24 equal targets and a steady gap between the blocks: slow blocks raise the target up to three times,
   * fast ones lower it down to a third, and in between it follows the 23 gaps the blocks span.
   */
  lemma SteadyGap(chain: seq<Blk>, t: nat, spacing: nat, gap: nat)
    requires |chain| > PAST_BLOCKS && spacing > 0
    requires forall i :: |chain| - PAST_BLOCKS <= i < |chain| ==> SetCompact(chain[i].bits) == t && chain[i].time > 0
    requires forall i :: |chain| - PAST_BLOCKS < i < |chain| ==> chain[i].time == chain[i - 1].time + gap
    ensures 23 * gap >= 72 * spacing ==> WaveTarget(chain, false, spacing) == Min(3 * t, LIMIT)
    ensures 23 * gap <= 8 * spacing ==> WaveTarget(chain, false, spacing) == Min(t / 3, LIMIT)
    ensures 8 * spacing <= 23 * gap <= 72 * spacing ==>
              WaveTarget(chain, false, spacing) == Min(t * (23 * gap) / (24 * spacing), LIMIT)
  {
    hide Average, Span, Counted, Targets, Times, SetCompact, Scale;
    var k := |chain| - 1;
    CountedSome(chain, k, PAST_BLOCKS, false);
    var s := Counted(chain, k, PAST_BLOCKS, false);
    ConstantAverage(Targets(s), t);
    SpanTelescopes(Times(s));
    Spaced(chain, 23, gap);
    ScaleSteady(t, 23 * gap, spacing);
  }

  lemma ScaleSteady(t: nat, span: nat, spacing: nat)
    requires spacing > 0
    ensures span >= 72 * spacing ==> Scale(t, span, PAST_BLOCKS, spacing) == Min(3 * t, LIMIT)
    ensures span <= 8 * spacing ==> Scale(t, span, PAST_BLOCKS, spacing) == Min(t / 3, LIMIT)
    ensures 8 * spacing <= span <= 72 * spacing ==>
              Scale(t, span, PAST_BLOCKS, spacing) == Min(t * span / (24 * spacing), LIMIT)
  {
    ClampedSpan(t, span, spacing);
    hide Scale;
    Cancel(t * 8, 24, spacing);
    Cancel(t * 72, 24, spacing);
    Regroup(t, 8, spacing);
    Regroup(t, 72, spacing);
  }

  /** The span that counts for 24 blocks lies between 8 and 72 spacings. */
  lemma ClampedSpan(t: nat, span: nat, spacing: nat)
    requires spacing > 0
    ensures var low, high := 8 * spacing, 72 * spacing;
            var actual := if span < low then low else if span > high then high else span;
            Scale(t, span, PAST_BLOCKS, spacing) == Min(t * actual / (24 * spacing), LIMIT)
  {
    var actual := Clamp(span, 24 * spacing);
    MulMono(0, t, 0, actual);
  }

  /**
   * Blocks exactly on schedule do not keep their target: 24 blocks span 23
   * intervals, so the target falls by one part in 24.
   */
  lemma OnScheduleFalls(chain: seq<Blk>, t: nat, spacing: nat)
    requires |chain| > PAST_BLOCKS && t <= LIMIT && spacing > 0
    requires forall i :: |chain| - PAST_BLOCKS <= i < |chain| ==> SetCompact(chain[i].bits) == t && chain[i].time > 0
    requires forall i :: |chain| - PAST_BLOCKS < i < |chain| ==> chain[i].time == chain[i - 1].time + spacing
    ensures WaveTarget(chain, false, spacing) == t * 23 / 24
  {
    hide WaveTarget, SetCompact;
    SteadyGap(chain, t, spacing, spacing);
    Cancel(t * 23, 24, spacing);
    assert t * (23 * spacing) == t * 23 * spacing;
  }

  lemma Cancel(x: nat, d: nat, c: nat)
    requires d > 0 && c > 0
    ensures d * c > 0 && x * c / (d * c) == x / d
  {
    AimPositive(d, c);
    var q, r := x / d, x % d;
    assert x == q * d + r;
    assert x * c == q * (d * c) + r * c;
    MulStep(r, d, c);
    assert 0 <= r * c < d * c;
    DivExact(x * c, d * c, q, r * c);
  }

  lemma DivExact(x: nat, d: nat, q: nat, r: nat)
    requires d > 0 && x == q * d + r && r < d
    ensures x / d == q
  {
    AtLeastDiv(q, x, d);
    var p := x / d;
    assert x == d * p + x % d;
    if q < p { MulStep(q, p, d); }
  }

  lemma {:induction false} Spaced(chain: seq<Blk>, n: nat, spacing: nat)
    requires n < PAST_BLOCKS < |chain|
    requires forall i :: |chain| - PAST_BLOCKS < i < |chain| ==> chain[i].time == chain[i - 1].time + spacing
    ensures chain[|chain| - 1].time == chain[|chain| - 1 - n].time + n * spacing
  {
    if n > 0 {
      Spaced(chain, n - 1, spacing);
      assert n * spacing == (n - 1) * spacing + spacing;
    }
  }

  lemma NextAverageIs(average: int, t: int, n: nat)
    ensures NextAverage(average, t, n) == if n + 1 == 1 then t else TruncDiv(average * (n + 1) + t, n + 1 + 1)
  {
    hide TruncDiv;
  }

  /** The loop over past blocks. */
  method WalkBlocks(chain: seq<Blk>, top: nat, skip: bool) returns (average: int, span: int, count: nat)
    requires top < |chain|
    ensures var s := Counted(chain, top, PAST_BLOCKS, skip);
            average == Average(Targets(s)) && span == Span(Times(s)) && count == |s|
  {
    hide SetCompact, Average, Span, Counted, TruncDiv, Targets, Times, NextAverage;
    var k := top;
    ghost var all := Counted(chain, top, PAST_BLOCKS, skip);
    ghost var s: seq<Blk> := [];
    var lastTime := 0;
    average, span, count := 0, 0, 0;
    EmptyList();
    while k > 0 && count < PAST_BLOCKS
      invariant 0 <= k < |chain| && count == |s| <= PAST_BLOCKS
      invariant all == s + Counted(chain, k, PAST_BLOCKS - count, skip)
      invariant average == Average(Targets(s)) && span == Span(Times(s))
      invariant lastTime == if s == [] then 0 else s[|s| - 1].time
      decreases PAST_BLOCKS - count
    {
      CountedStep(chain, k, PAST_BLOCKS - count, skip);
      ListStep(s, chain[k]);
      NextAverageIs(average, SetCompact(chain[k].bits), count);
      count := count + 1;
      if count == 1 { average := SetCompact(chain[k].bits); }
      else { average := TruncDiv(average * count + SetCompact(chain[k].bits), count + 1); }
      if lastTime > 0 { span := span + (lastTime - chain[k].time); }
      lastTime := chain[k].time;
      s := s + [chain[k]];
      k := k - 1;
      if skip { k := GetLastBlockIndex(chain, k, false); }
    }
    CountedStep(chain, k, PAST_BLOCKS - count, skip);
    assert s == all;
  }

  /** DarkGravityWave3, and with skip DarkGravityWave3fix. */
  method DarkGravityWave(chain: seq<Blk>, skip: bool, spacing: nat) returns (target: int, bits: Bits)
    requires spacing > 0
    ensures target == WaveTarget(chain, skip, spacing) && bits == GetCompact(target)
  {
    hide GetCompact, SetCompact, Average, Span, Counted, TruncDiv, Targets, Times;
    if chain == [] { return LIMIT, GetCompact(LIMIT); }
    var k := |chain| - 1;
    if skip { k := GetLastBlockIndex(chain, k, false); }
    if k < PAST_BLOCKS { return LIMIT, GetCompact(LIMIT); }
    var average, actual, count := WalkBlocks(chain, k, skip);
    CountedSome(chain, k, PAST_BLOCKS, skip);
    var aim := count * spacing;
    AimPositive(count, spacing);
    if actual < aim / 3 { actual := aim / 3; }
    if actual > aim * 3 { actual := aim * 3; }
    target := TruncDiv(average * actual, aim);
    if target > LIMIT { target := LIMIT; }
    bits := GetCompact(target);
  }

  lemma CountedStep(chain: seq<Blk>, k: nat, n: nat, skip: bool)
    requires k < |chain|
    ensures k > 0 && n > 0 ==>
              Counted(chain, k, n, skip) == [chain[k]] + Counted(chain, Below(chain, k, skip), n - 1, skip)
    ensures k == 0 || n == 0 ==> Counted(chain, k, n, skip) == []
  {
  }

  lemma EmptyList()
    ensures Average(Targets([])) == 0 && Span(Times([])) == 0
  {
  }

  /** One more, older, block. */
  lemma ListStep(s: seq<Blk>, b: Blk)
    ensures Average(Targets(s + [b])) == NextAverage(Average(Targets(s)), SetCompact(b.bits), |s|)
    ensures Span(Times(s + [b]))
         == Span(Times(s)) + if s != [] && s[|s| - 1].time > 0 then Minus(s[|s| - 1].time, b.time) else 0
  {
    hide SetCompact, Average, Span;
    var ts, us := Targets(s + [b]), Times(s + [b]);
    assert ts == Targets(s) + [SetCompact(b.bits)] && us == Times(s) + [b.time];
    hide Targets, Times;
    AverageStep(Targets(s), SetCompact(b.bits));
    SpanStep(Times(s), b.time);
  }

  lemma AverageStep(ts: seq<int>, t: int)
    ensures Average(ts + [t]) == NextAverage(Average(ts), t, |ts|)
  {
    hide NextAverage;
    assert (ts + [t])[..|ts|] == ts;
  }

  lemma SpanStep(us: seq<nat>, u: nat)
    ensures Span(us + [u]) == Span(us) + if us != [] && us[|us| - 1] > 0 then Minus(us[|us| - 1], u) else 0
  {
    assert (us + [u])[..|us|] == us;
  }

  // ----- Proof of stake -----

  function StakeSpacing(actual: int): int { if actual < 0 then 1 else if actual > DAY then DAY else actual }

  /** Moves a target toward the spacing aimed at. */
  function StakeScale(target: int, spacing: nat, actual: int): int
    requires spacing > 0
  {
    var interval := DAY / spacing;
    TruncDiv(target * ((interval - 1) * spacing + 2 * actual), (interval + 1) * spacing)
  }

  /** The spacings in use: one minute, or two. */
  predicate SpacingOk(spacing: nat) { spacing == STAKE_TARGET_SPACING || spacing == 2 * STAKE_TARGET_SPACING }

  function WorkSpacing(stake: bool, tip: nat, prev: nat): (spacing: nat)
    requires prev <= tip
    ensures SpacingOk(spacing)
  {
    if stake then STAKE_TARGET_SPACING
    else Min(2 * STAKE_TARGET_SPACING, STAKE_TARGET_SPACING * (1 + tip - prev))
  }

  function StakeTarget(chain: seq<Blk>, stake: bool): int {
    if chain == [] then LIMIT
    else
      var tip := |chain| - 1;
      var prev := LastIndex(chain, tip, stake);
      if prev == 0 then LIMIT
      else
        var before := LastIndex(chain, prev - 1, stake);
        if before == 0 then LIMIT
        else Min(StakeScale(SetCompact(chain[prev].bits), WorkSpacing(stake, tip, prev),
                            StakeSpacing(chain[prev].time - chain[before].time)), LIMIT)
  }

  method GetNextPosTargetRequired(chain: seq<Blk>, stake: bool) returns (target: int, bits: Bits)
    ensures target == StakeTarget(chain, stake) && bits == GetCompact(target)
  {
    hide GetCompact, SetCompact;
    if chain == [] { return LIMIT, GetCompact(LIMIT); }
    var tip := |chain| - 1;
    var prev := GetLastBlockIndex(chain, tip, stake);
    if prev == 0 { return LIMIT, GetCompact(LIMIT); }
    var before := GetLastBlockIndex(chain, prev - 1, stake);
    if before == 0 { return LIMIT, GetCompact(LIMIT); }
    var actual := chain[prev].time - chain[before].time;
    if actual < 0 { actual := 1; } else if actual > DAY { actual := DAY; }
    var spacing := WorkSpacing(stake, tip, prev);
    target := StakeScale(SetCompact(chain[prev].bits), spacing, actual);
    if target > LIMIT { target := LIMIT; }
    bits := GetCompact(target);
  }

  lemma ExactDiv(t: int, d: nat)
    requires d > 0
    ensures TruncDiv(t * d, d) == t
  {
    if t >= 0 {
      DivBounds(t * d, d, t, t);
    } else {
      assert -(t * d) == -t * d;
      DivBounds(-t * d, d, -t, -t);
    }
  }

  /** On schedule the target stays. */
  lemma StakeFixedPoint(t: int, spacing: nat)
    requires SpacingOk(spacing)
    ensures StakeScale(t, spacing, spacing) == t
  {
    ExactDiv(t, (DAY / spacing + 1) * spacing);
  }

  /**
   * Faster blocks never raise the target, slower ones never lower it; it never triples and falls by
   * at most two parts in interval + 1.
   */
  lemma StakeBounds(t: nat, spacing: nat, actual: int)
    requires SpacingOk(spacing)
    ensures var r, a := StakeScale(t, spacing, StakeSpacing(actual)), StakeSpacing(actual);
            && 0 <= r <= 3 * t && (t > 0 ==> r < 3 * t)
            && (a <= spacing ==> r <= t) && (a >= spacing ==> r >= t)
            && t * (DAY / spacing - 1) / (DAY / spacing + 1) <= r
  {
    hide StakeScale;
    var a := StakeSpacing(actual);
    StakeScaleIs(t, spacing, a);
    var m, d := Numerator(spacing, a), Denominator(spacing);
    ScaledBy(t, m, d);
    ScaledLow(t, m, d, DAY / spacing - 1, DAY / spacing + 1, spacing);
  }

  function Numerator(spacing: nat, a: int): int { (if spacing == 60 then 86340 else 86280) + 2 * a }

  function Denominator(spacing: nat): nat { if spacing == 60 then 86460 else 86520 }

  lemma StakeScaleIs(t: nat, spacing: nat, a: nat)
    requires SpacingOk(spacing)
    ensures StakeScale(t, spacing, a) == t * Numerator(spacing, a) / Denominator(spacing)
    ensures Denominator(spacing) == (DAY / spacing + 1) * spacing
    ensures Numerator(spacing, a) == (DAY / spacing - 1) * spacing + 2 * a
  {
    if spacing == 60 { assert DAY / spacing == 1440; } else { assert DAY / spacing == 720; }
    MulMono(0, t, 0, Numerator(spacing, a));
  }

  lemma ScaledBy(t: nat, m: nat, d: nat)
    requires d > 0 && m < 3 * d
    ensures 0 <= t * m / d <= 3 * t && (t > 0 ==> t * m / d < 3 * t)
    ensures (m <= d ==> t * m / d <= t) && (m >= d ==> t * m / d >= t)
  {
    MulMono(t, t, 0, m);
    MulMono(t, t, m, 3 * d);
    assert t * (3 * d) == 3 * t * d;
    DivBounds(t * m, d, 0, 3 * t);
    if m <= d { MulMono(t, t, m, d); DivBounds(t * m, d, 0, t); }
    if m >= d { MulMono(t, t, d, m); DivBounds(t * m, d, t, 3 * t); }
    if t > 0 { UnderTriple(t, m, d); }
  }

  lemma UnderTriple(t: nat, m: nat, d: nat)
    requires t > 0 && d > 0 && m < 3 * d
    ensures t * m / d < 3 * t
  {
    MulStep(m, 3 * d, t);
    var x, q := t * m, t * m / d;
    assert m * t + t <= 3 * d * t;
    assert x == d * q + x % d;
    assert 3 * t * d == 3 * d * t;
    if q >= 3 * t { MulMono(3 * t, q, d, d); }
  }

  lemma ScaledLow(t: nat, m: nat, d: nat, a: nat, b: nat, c: nat)
    requires c > 0 && b > 0 && d == b * c && m >= a * c
    ensures t * a / b <= t * m / d
  {
    var q := t * a / b;
    assert t * a == b * q + t * a % b;
    MulMono(q * b, t * a, c, c);
    assert q * b * c == q * d && t * a * c == t * (a * c);
    MulMono(t, t, a * c, m);
    AtLeastDiv(q, t * m, d);
  }

  /** A longer spacing never gives a smaller target. */
  lemma StakeMonotone(t: nat, spacing: nat, a: nat, b: nat)
    requires SpacingOk(spacing) && a <= b
    ensures StakeScale(t, spacing, a) <= StakeScale(t, spacing, b)
  {
    hide StakeScale;
    StakeScaleIs(t, spacing, a);
    StakeScaleIs(t, spacing, b);
    DivMono(t, Numerator(spacing, a), Numerator(spacing, b), Denominator(spacing));
  }

  lemma DivMono(t: nat, m: nat, n: nat, d: nat)
    requires m <= n && d > 0
    ensures t * m / d <= t * n / d
  {
    MulMono(t, t, m, n);
    var q := t * m / d;
    assert t * m == d * q + t * m % d;
    AtLeastDiv(q, t * n, d);
  }

  /**
   * On schedule the bits stay: when the last two proof-of-stake blocks are one
   * spacing apart and the last one's bits encode a target within the limit, the
   * next block gets the same bits.
   */
  lemma StakeFixedPointOnChain(chain: seq<Blk>, x: nat)
    requires chain != [] && x <= LIMIT && Size(x) <= 255
    requires var prev := LastIndex(chain, |chain| - 1, true);
             && prev > 0 && chain[prev].bits == GetCompact(x)
             && var before := LastIndex(chain, prev - 1, true);
                before > 0 && chain[prev].time == chain[before].time + STAKE_TARGET_SPACING
    ensures GetCompact(StakeTarget(chain, true)) == chain[LastIndex(chain, |chain| - 1, true)].bits
  {
    hide GetCompact, SetCompact, Size, StakeScale;
    RoundingError(x);
    RoundingKeepsBits(x);
    StakeFixedPoint(Rounded(x), STAKE_TARGET_SPACING);
    assert StakeTarget(chain, true) == Rounded(x);
  }

  /** For either spacing in use: a target written by an earlier retarget is written again. */
  lemma StakeFixedPointEncoded(x: nat, spacing: nat)
    requires SpacingOk(spacing) && x <= LIMIT && Size(x) <= 255
    ensures GetCompact(Min(StakeScale(SetCompact(GetCompact(x)), spacing, spacing), LIMIT)) == GetCompact(x)
  {
    hide GetCompact, SetCompact, Size;
    RoundingError(x);
    RoundingKeepsBits(x);
    StakeFixedPoint(Rounded(x), spacing);
  }
}
