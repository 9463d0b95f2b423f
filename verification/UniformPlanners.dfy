/** The planners for 16, 48, 64 and 96 channels, which may first enable or disable
    all channels and then correct single blocks. */
module UniformPlanners {
  import opened Wrappers
  import opened ChannelMask
  import opened BlockPlanner
  import opened LowerBound

  method GenerateChMask16(currentChs: Channels, desiredChs: Channels)
    returns (r: Result<seq<ChMaskCntlPair>, MaskError>)
    ensures |currentChs| != 16 || |desiredChs| != 16 ==> r == Failure(InvalidChannelCount)
    ensures |currentChs| == |desiredChs| == 16 ==>
              && r.Success? && |r.value| == 1
              && Reaches(Ch16, currentChs, r.value, desiredChs)
  {
    if |currentChs| != 16 || |desiredChs| != 16 {
      return Failure(InvalidChannelCount);
    }
    var mask := BoolsTo16BoolArray(desiredChs);
    r := Success([ChMaskCntlPair(0, mask)]);
    RunCons(Ch16, currentChs, r.value[0], []);
    assert [r.value[0]] + [] == r.value;
    assert Step(Ch16, currentChs, r.value[0]).value == desiredChs;
  }

  // Choosing between the plans.

  /** No wide command is used unless it saves a command. */
  ghost predicate PrefersBlocks(plan: Plan, s: Channels, d: Channels, pairs: seq<ChMaskCntlPair>) {
    pairs == BlockPlan(s, d, plan.Blocks()) || |pairs| < DiffCount(s, d, 0, plan.Blocks())
  }

  ghost predicate TwoBlocksShortOfUniform(plan: Plan, s: Channels, d: Channels) {
    && (d == Uniform(true, d) || d == Uniform(false, d))
    && DiffCount(s, d, 0, plan.Blocks()) == 2
  }

  /** The ChMaskCntl that enables or disables all channels. */
  function UniformCntl(plan: Plan, v: bool): Byte {
    match plan
    case Ch48 => if v then 3 else 4
    case _ => if v then 6 else 7
  }

  function UniformCommand(plan: Plan, v: bool): (c: ChMaskCntlPair)
  {
    ChMaskCntlPair(UniformCntl(plan, v), Pad16([]))
  }

  ghost predicate HasUniform(plan: Plan, v: bool) {
    plan == Ch48 || plan == Ch64 || (plan == Ch96 && v)
  }

  lemma UniformReached(plan: Plan, s: Channels, v: bool)
    requires HasUniform(plan, v) && |s| == plan.Channels()
    ensures Step(plan, s, UniformCommand(plan, v)) == Some(Repeat(v, |s|))
  {
    assert Step(plan, s, UniformCommand(plan, v)).value == Repeat(v, |s|);
  }

  ghost function UniformFirst(plan: Plan, v: bool, d: Channels): seq<ChMaskCntlPair> {
    [UniformCommand(plan, v)] + BlockPlan(Uniform(v, d), d, plan.Blocks())
  }

  lemma RunUniformFirst(plan: Plan, s: Channels, v: bool, d: Channels)
    requires HasUniform(plan, v) && |s| == |d| == plan.Channels()
    ensures Reaches(plan, s, UniformFirst(plan, v, d), d)
    ensures |UniformFirst(plan, v, d)| == 1 + DiffCount(Uniform(v, d), d, 0, plan.Blocks())
  {
    UniformReached(plan, s, v);
    RunWideFirst(plan, s, UniformCommand(plan, v), Uniform(v, d), d, plan.Blocks());
    BlockPlanLength(Uniform(v, d), d, plan.Blocks());
  }

  lemma RunDirect(plan: Plan, s: Channels, d: Channels)
    requires |s| == |d| == plan.Channels() && plan != Ch72
    ensures Reaches(plan, s, BlockPlan(s, d, plan.Blocks()), d)
    ensures |BlockPlan(s, d, plan.Blocks())| == DiffCount(s, d, 0, plan.Blocks())
    ensures |BlockPlan(s, d, plan.Blocks())| == 0 <==> s == d
  {
    RunBlockPlan(plan, s, s, d, plan.Blocks());
    BlockPlanLength(s, d, plan.Blocks());
    DiffCountZero(s, d, plan.Blocks());
  }

  // 48 and 64 channels.

  ghost function TwoSidedPlan(plan: Plan, s: Channels, d: Channels): seq<ChMaskCntlPair> {
    var direct := BlockPlan(s, d, plan.Blocks());
    var on, off := UniformFirst(plan, true, d), UniformFirst(plan, false, d);
    if |direct| <= 2 || (|direct| <= |on| && |direct| <= |off|) then direct
    else if |on| < |off| then on
    else off
  }

  /** The chosen plan leads to the desired state; it is shortest, except that two blocks
      short of a uniform state the single wide command is never considered. */
  lemma TwoSidedPlanCorrect(plan: Plan, s: Channels, d: Channels)
    requires plan == Ch48 || plan == Ch64
    requires |s| == |d| == plan.Channels()
    ensures Reaches(plan, s, TwoSidedPlan(plan, s, d), d)
    ensures |TwoSidedPlan(plan, s, d)| == 0 <==> s == d
    ensures PrefersBlocks(plan, s, d, TwoSidedPlan(plan, s, d))
    ensures s != d ==>
              (Shortest(plan, true, true, s, d, |TwoSidedPlan(plan, s, d)|) <==> !TwoBlocksShortOfUniform(plan, s, d))
  {
    RunDirect(plan, s, d);
    RunUniformFirst(plan, s, true, d);
    RunUniformFirst(plan, s, false, d);
    if s == d {
    } else if TwoBlocksShortOfUniform(plan, s, d) {
      OneCommandSuffices(plan, s, d);
    } else {
      TwoSidedPlanShortest(plan, s, d);
    }
  }

  lemma OneCommandSuffices(plan: Plan, s: Channels, d: Channels)
    requires plan == Ch48 || plan == Ch64
    requires |s| == |d| == plan.Channels() && TwoBlocksShortOfUniform(plan, s, d)
    ensures !Shortest(plan, true, true, s, d, 2)
  {
    var c := UniformCommand(plan, d == Uniform(true, d));
    UniformReached(plan, s, d == Uniform(true, d));
    RunSingle(plan, s, c);
    assert Permitted(plan, true, true, [c]) && Reaches(plan, s, [c], d);
  }

  lemma TwoSidedPlanShortest(plan: Plan, s: Channels, d: Channels)
    requires plan == Ch48 || plan == Ch64
    requires |s| == |d| == plan.Channels() && s != d && !TwoBlocksShortOfUniform(plan, s, d)
    ensures Shortest(plan, true, true, s, d, |TwoSidedPlan(plan, s, d)|)
  {
    RunDirect(plan, s, d);
    RunUniformFirst(plan, s, true, d);
    RunUniformFirst(plan, s, false, d);
    DiffCountZero(Uniform(true, d), d, plan.Blocks());
    DiffCountZero(Uniform(false, d), d, plan.Blocks());
    TwoSidedBound(plan, s, d);
    var n := |TwoSidedPlan(plan, s, d)|;
    NoLongerThanBound(plan, true, true, s, d, n);
  }

  lemma TwoSidedBound(plan: Plan, s: Channels, d: Channels)
    requires plan == Ch48 || plan == Ch64
    ensures Bound(ReachOf(plan, true, true), s, d) ==
            Min(DiffCount(s, d, 0, plan.Blocks()),
                Min(1 + DiffCount(Uniform(true, d), d, 0, plan.Blocks()),
                    1 + DiffCount(Uniform(false, d), d, 0, plan.Blocks())))
  {
    var n := plan.Blocks();
    assert ReachOf(plan, true, true) == Reach(n, n, true, false);
  }

  /** The plan that corrects a uniform state, as the planners build it. */
  lemma UniformFirstIs(plan: Plan, v: bool, d: Channels, mask: ChMask, tail: seq<ChMaskCntlPair>)
    requires |d| == plan.Channels() && |d| % BLOCK == 0
    requires mask == Pad16([]) && tail == BlockPlan(Repeat(v, |d|), d[0..|d|], |d| / BLOCK)
    ensures UniformFirst(plan, v, d) == [ChMaskCntlPair(UniformCntl(plan, v), mask)] + tail
  {
    assert d[0..|d|] == d;
    assert tail == BlockPlan(Uniform(v, d), d, plan.Blocks());
  }

  lemma DirectIs(plan: Plan, s: Channels, d: Channels, pairs: seq<ChMaskCntlPair>)
    requires |s| == |d| == plan.Channels() && |d| % BLOCK == 0
    requires pairs == BlockPlan(s[0..|s|], d[0..|d|], |s| / BLOCK)
    ensures pairs == BlockPlan(s, d, plan.Blocks())
  {
    assert d[0..|d|] == d && s[0..|s|] == s;
  }

  method GenerateChMask48(currentChs: Channels, desiredChs: Channels)
    returns (r: Result<seq<ChMaskCntlPair>, MaskError>)
    ensures |currentChs| != 48 || |desiredChs| != 48 ==> r == Failure(InvalidChannelCount)
    ensures |currentChs| == |desiredChs| == 48 ==>
              && r == Success(TwoSidedPlan(Ch48, currentChs, desiredChs))
              && Reaches(Ch48, currentChs, r.value, desiredChs)
              && (|r.value| == 0 <==> currentChs == desiredChs)
              && PrefersBlocks(Ch48, currentChs, desiredChs, r.value)
              && (currentChs != desiredChs ==>
                    (Shortest(Ch48, true, true, currentChs, desiredChs, |r.value|) <==>
                     !TwoBlocksShortOfUniform(Ch48, currentChs, desiredChs)))
  {
    if |currentChs| != 48 || |desiredChs| != 48 {
      return Failure(InvalidChannelCount);
    }
    TwoSidedPlanCorrect(Ch48, currentChs, desiredChs);
    var pairs := BlockCommandsFor(currentChs[0..48], desiredChs[0..48]);
    DirectIs(Ch48, currentChs, desiredChs, pairs);
    if |pairs| <= 2 {
      return Success(pairs);
    }
    var cntl3Pairs := BlockCommandsFor(Repeat(true, 48), desiredChs[0..48]);
    var cntl4Pairs := BlockCommandsFor(Repeat(false, 48), desiredChs[0..48]);
    var noMask := BoolsTo16BoolArray([]);
    UniformFirstIs(Ch48, true, desiredChs, noMask, cntl3Pairs);
    UniformFirstIs(Ch48, false, desiredChs, noMask, cntl4Pairs);
    if |pairs| <= 1 + |cntl3Pairs| && |pairs| <= 1 + |cntl4Pairs| {
      return Success(pairs);
    } else if |cntl3Pairs| < |cntl4Pairs| {
      return Success([ChMaskCntlPair(3, noMask)] + cntl3Pairs);
    } else {
      return Success([ChMaskCntlPair(4, noMask)] + cntl4Pairs);
    }
  }

  method GenerateChMask64(currentChs: Channels, desiredChs: Channels)
    returns (r: Result<seq<ChMaskCntlPair>, MaskError>)
    ensures |currentChs| != 64 || |desiredChs| != 64 ==> r == Failure(InvalidChannelCount)
    ensures |currentChs| == |desiredChs| == 64 ==>
              && r == Success(TwoSidedPlan(Ch64, currentChs, desiredChs))
              && Reaches(Ch64, currentChs, r.value, desiredChs)
              && (|r.value| == 0 <==> currentChs == desiredChs)
              && PrefersBlocks(Ch64, currentChs, desiredChs, r.value)
              && (currentChs != desiredChs ==>
                    (Shortest(Ch64, true, true, currentChs, desiredChs, |r.value|) <==>
                     !TwoBlocksShortOfUniform(Ch64, currentChs, desiredChs)))
  {
    if |currentChs| != 64 || |desiredChs| != 64 {
      return Failure(InvalidChannelCount);
    }
    TwoSidedPlanCorrect(Ch64, currentChs, desiredChs);
    var pairs := BlockCommandsFor(currentChs[0..64], desiredChs[0..64]);
    DirectIs(Ch64, currentChs, desiredChs, pairs);
    if |pairs| <= 2 {
      return Success(pairs);
    }
    var cntl6Pairs := BlockCommandsFor(Repeat(true, 64), desiredChs[0..64]);
    var cntl7Pairs := BlockCommandsFor(Repeat(false, 64), desiredChs[0..64]);
    var noMask := BoolsTo16BoolArray([]);
    UniformFirstIs(Ch64, true, desiredChs, noMask, cntl6Pairs);
    UniformFirstIs(Ch64, false, desiredChs, noMask, cntl7Pairs);
    if |pairs| <= 1 + |cntl6Pairs| && |pairs| <= 1 + |cntl7Pairs| {
      return Success(pairs);
    } else if |cntl6Pairs| < |cntl7Pairs| {
      return Success([ChMaskCntlPair(6, noMask)] + cntl6Pairs);
    } else {
      return Success([ChMaskCntlPair(7, noMask)] + cntl7Pairs);
    }
  }

  // 96 channels.

  ghost function OneSidedPlan(s: Channels, d: Channels): seq<ChMaskCntlPair> {
    var direct := BlockPlan(s, d, Ch96.Blocks());
    var on := UniformFirst(Ch96, true, d);
    if s == d then [ChMaskCntlPair(0, BlockMask(d, 0))]
    else if d == Uniform(true, d) then [UniformCommand(Ch96, true)]
    else if |direct| <= 2 || |direct| <= |on| then direct
    else on
  }

  /** The chosen plan leads to the desired state, and no other sequence of commands does so faster. */
  lemma OneSidedPlanCorrect(s: Channels, d: Channels)
    requires |s| == |d| == Ch96.Channels()
    ensures Reaches(Ch96, s, OneSidedPlan(s, d), d)
    ensures s == d ==> |OneSidedPlan(s, d)| == 1
    ensures s != d ==> Shortest(Ch96, true, true, s, d, |OneSidedPlan(s, d)|)
    ensures s != d && d != Uniform(true, d) ==> PrefersBlocks(Ch96, s, d, OneSidedPlan(s, d))
  {
    RunDirect(Ch96, s, d);
    RunUniformFirst(Ch96, s, true, d);
    if s == d {
      var c := ChMaskCntlPair(0, BlockMask(d, 0));
      RunSingle(Ch96, s, c);
      StepBlock(Ch96, s, c);
      assert WriteBlock(s, 0, c.mask) == d;
    } else {
      if d == Uniform(true, d) {
        UniformReached(Ch96, s, true);
        RunSingle(Ch96, s, UniformCommand(Ch96, true));
      }
      DiffCountZero(Uniform(true, d), d, Ch96.Blocks());
      OneSidedBound(s, d);
      var n := |OneSidedPlan(s, d)|;
      NoLongerThanBound(Ch96, true, true, s, d, n);
    }
  }

  lemma OneSidedBound(s: Channels, d: Channels)
    ensures Bound(ReachOf(Ch96, true, true), s, d) ==
            Min(DiffCount(s, d, 0, Ch96.Blocks()), 1 + DiffCount(Uniform(true, d), d, 0, Ch96.Blocks()))
  {
    var n := Ch96.Blocks();
    assert ReachOf(Ch96, true, true) == Reach(n, n, false, false);
  }

  method GenerateChMask96(currentChs: Channels, desiredChs: Channels)
    returns (r: Result<seq<ChMaskCntlPair>, MaskError>)
    ensures |currentChs| != 96 || |desiredChs| != 96 ==> r == Failure(InvalidChannelCount)
    ensures |currentChs| == |desiredChs| == 96 ==>
              && r == Success(OneSidedPlan(currentChs, desiredChs))
              && Reaches(Ch96, currentChs, r.value, desiredChs)
              && (currentChs == desiredChs ==> |r.value| == 1)
              && (currentChs != desiredChs ==>
                    && Shortest(Ch96, true, true, currentChs, desiredChs, |r.value|)
                    && (desiredChs != Uniform(true, desiredChs) ==> PrefersBlocks(Ch96, currentChs, desiredChs, r.value)))
  {
    if |currentChs| != 96 || |desiredChs| != 96 {
      return Failure(InvalidChannelCount);
    }
    OneSidedPlanCorrect(currentChs, desiredChs);
    var noMask := BoolsTo16BoolArray([]);
    var equal := EqualChMasks(currentChs, desiredChs);
    if equal {
      var mask := BoolsTo16BoolArray(desiredChs[0..16]);
      assert mask == BlockMask(desiredChs, 0);
      return Success([ChMaskCntlPair(0, mask)]);
    }
    var on := CountTrue(desiredChs);
    TrueCountExtremes(desiredChs);
    if on == 96 {
      assert desiredChs == Uniform(true, desiredChs);
      return Success([ChMaskCntlPair(6, noMask)]);
    }
    assert currentChs[0..96] == currentChs && desiredChs[0..96] == desiredChs;
    var pairs := BlockCommandsFor(currentChs, desiredChs);
    DirectIs(Ch96, currentChs, desiredChs, pairs);
    if |pairs| <= 2 {
      return Success(pairs);
    }
    var cntl6Pairs := BlockCommandsFor(Repeat(true, 96), desiredChs);
    UniformFirstIs(Ch96, true, desiredChs, noMask, cntl6Pairs);
    if |pairs| <= 1 + |cntl6Pairs| {
      return Success(pairs);
    }
    return Success([ChMaskCntlPair(6, noMask)] + cntl6Pairs);
  }
}
