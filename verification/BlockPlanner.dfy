/** The block-wise planner that all channel plans share, over any number of blocks. */
module BlockPlanner {
  import opened Wrappers
  import opened ChannelMask

  const BLOCK := 16

  ghost predicate Differs(a: Channels, b: Channels, k: nat) {
    exists i | 0 <= i < |a| && i < |b| && i / BLOCK == k :: a[i] != b[i]
  }

  function BlockMask(s: Channels, k: nat): (m: ChMask)
  {
    seq(BLOCK, j => 0 <= j && BLOCK * k + j < |s| && s[BLOCK * k + j])
  }

  /** The commands for those of the first n blocks in which the two states differ. */
  ghost function BlockPlan(a: Channels, b: Channels, n: nat): seq<ChMaskCntlPair> {
    if n == 0 then []
    else
      BlockPlan(a, b, n - 1) +
      (if Differs(a, b, n - 1) then [ChMaskCntlPair((n - 1) % 0x100, BlockMask(b, n - 1))] else [])
  }

  method GenerateChMaskMatrix(pairs: seq<ChMaskCntlPair>, currentChs: Channels, desiredChs: Channels)
    returns (r: Result<seq<ChMaskCntlPair>, MaskError>)
    ensures |currentChs| % BLOCK != 0 || |desiredChs| != |currentChs| ==> r == Failure(InvalidChannelCount)
    ensures |currentChs| % BLOCK == 0 && |desiredChs| == |currentChs| ==>
              r == Success(pairs + BlockPlan(currentChs, desiredChs, |currentChs| / BLOCK))
  {
    var n := |currentChs|;
    if n % BLOCK != 0 || |desiredChs| != n {
      return Failure(InvalidChannelCount);
    }
    var result := pairs;
    for i := 0 to n / BLOCK
      invariant result == pairs + BlockPlan(currentChs, desiredChs, i)
    {
      var differs := false;
      for j := 0 to BLOCK
        invariant !differs && forall x | BLOCK * i <= x < BLOCK * i + j :: currentChs[x] == desiredChs[x]
      {
        if currentChs[BLOCK * i + j] != desiredChs[BLOCK * i + j] {
          assert (BLOCK * i + j) / BLOCK == i;
          differs := true;
          break;
        }
      }
      assert differs <==> Differs(currentChs, desiredChs, i);
      if differs {
        var mask := BoolsTo16BoolArray(desiredChs[BLOCK * i..BLOCK * i + BLOCK]);
        assert mask == BlockMask(desiredChs, i);
        result := result + [ChMaskCntlPair(i % 0x100, mask)];
      }
    }
    return Success(result);
  }

  /** The planners only ask for block commands with lengths that the block planner accepts. */
  method BlockCommandsFor(currentChs: Channels, desiredChs: Channels) returns (pairs: seq<ChMaskCntlPair>)
    requires |currentChs| == |desiredChs| && |currentChs| % BLOCK == 0
    ensures pairs == BlockPlan(currentChs, desiredChs, |currentChs| / BLOCK)
  {
    var r := GenerateChMaskMatrix([], currentChs, desiredChs);
    pairs := r.value;
  }

  // One command per differing block, in increasing order.

  lemma {:induction false} BlockPlanCommands(a: Channels, b: Channels, n: nat)
    requires n <= 0x100
    ensures forall k: nat :: (exists c | c in BlockPlan(a, b, n) :: c.cntl == k) <==> k < n && Differs(a, b, k)
    ensures forall c | c in BlockPlan(a, b, n) :: c.cntl < n && c.mask == BlockMask(b, c.cntl)
    ensures forall i, j | 0 <= i < j < |BlockPlan(a, b, n)| :: BlockPlan(a, b, n)[i].cntl < BlockPlan(a, b, n)[j].cntl
  {
    if n != 0 {
      BlockPlanCommands(a, b, n - 1);
      var init := BlockPlan(a, b, n - 1);
      if Differs(a, b, n - 1) {
        var c := ChMaskCntlPair(n - 1, BlockMask(b, n - 1));
        assert BlockPlan(a, b, n) == init + [c];
        assert c in BlockPlan(a, b, n);
        assert forall d | d in init :: d in BlockPlan(a, b, n);
      }
    }
  }

  /** The plan computed from a turns any state that agrees with a on the first n blocks
      into one that agrees with b there, and touches nothing else. */
  lemma {:induction false} BlockPlanMeaning(s: Channels, a: Channels, b: Channels, n: nat)
    requires n <= 0x100 && |s| == |b| && (|s| <= |a| || BLOCK * n <= |a|)
    requires forall i | 0 <= i < |s| && i < BLOCK * n :: s[i] == a[i]
    ensures forall i | 0 <= i < |s| ::
              RunWrites(s, BlockPlan(a, b, n))[i] == if i < BLOCK * n then b[i] else s[i]
  {
    if n != 0 {
      BlockPlanMeaning(s, a, b, n - 1);
      var init := BlockPlan(a, b, n - 1);
      if Differs(a, b, n - 1) {
        var c := ChMaskCntlPair(n - 1, BlockMask(b, n - 1));
        assert BlockPlan(a, b, n) == init + [c];
        assert (init + [c])[..|init|] == init;
        assert forall i | 0 <= i < |s| && i / BLOCK == n - 1 :: BLOCK * (n - 1) + i % BLOCK == i;
      } else {
        assert BlockPlan(a, b, n) == init;
        forall i | 0 <= i < |s| && i / BLOCK == n - 1
          ensures s[i] == b[i]
        {
          assert s[i] == a[i];
        }
      }
    }
  }

  /** For every length 16 * n up to 256 blocks, the generated plan leads to exactly the desired state. */
  lemma BlockPlannerMeaning(currentChs: Channels, desiredChs: Channels)
    requires |currentChs| == |desiredChs| && |currentChs| % BLOCK == 0 && |currentChs| / BLOCK <= 0x100
    ensures RunWrites(currentChs, BlockPlan(currentChs, desiredChs, |currentChs| / BLOCK)) == desiredChs
  {
    BlockPlanMeaning(currentChs, currentChs, desiredChs, |currentChs| / BLOCK);
  }

  /** No plan of block commands to the desired state is shorter. */
  lemma BlockPlannerMinimal(currentChs: Channels, desiredChs: Channels, cmds: seq<ChMaskCntlPair>)
    requires |currentChs| == |desiredChs| && |currentChs| % BLOCK == 0 && |currentChs| / BLOCK <= 0x100
    requires RunWrites(currentChs, cmds) == desiredChs
    ensures |BlockPlan(currentChs, desiredChs, |currentChs| / BLOCK)| <= |cmds|
  {
    var n := |currentChs| / BLOCK;
    WritesBound(currentChs, desiredChs, cmds, n);
    BlockPlanLength(currentChs, desiredChs, n);
    NoDifference(desiredChs, 0, n);
  }

  lemma {:induction false} WritesBound(s: Channels, d: Channels, cmds: seq<ChMaskCntlPair>, n: nat)
    requires |s| == |d|
    ensures DiffCount(s, d, 0, n) <= DiffCount(RunWrites(s, cmds), d, 0, n) + |cmds|
  {
    if cmds != [] {
      var init, last := cmds[..|cmds| - 1], cmds[|cmds| - 1];
      WritesBound(s, d, init, n);
      DiffCountEdit(RunWrites(s, init), RunWrites(s, cmds), d, last.cntl, 0, n);
    }
  }

  // Block plans as part of a channel plan.

  /** The commands lead a device from s to d. */
  ghost predicate Reaches(plan: Plan, s: Channels, cmds: seq<ChMaskCntlPair>, d: Channels) {
    Run(plan, s, cmds) == Some(d)
  }

  lemma RunBlockPlan(plan: Plan, s: Channels, a: Channels, d: Channels, n: nat)
    requires |s| == |d| == plan.Channels() && n <= plan.Blocks() && (|s| <= |a| || BLOCK * n <= |a|)
    requires forall i | 0 <= i < |s| && i < BLOCK * n :: s[i] == a[i]
    requires forall i | BLOCK * n <= i < |s| :: s[i] == d[i]
    ensures Reaches(plan, s, BlockPlan(a, d, n), d)
  {
    BlockPlanCommands(a, d, n);
    RunBlocks(plan, s, BlockPlan(a, d, n));
    BlockPlanMeaning(s, a, d, n);
    assert RunWrites(s, BlockPlan(a, d, n)) == d;
  }

  /** A wide command, and then the blocks in which its result still differs from d. */
  lemma RunWideFirst(plan: Plan, s: Channels, c: ChMaskCntlPair, a: Channels, d: Channels, n: nat)
    requires |s| == |d| == plan.Channels() && n <= plan.Blocks() && (|s| <= |a| || BLOCK * n <= |a|)
    requires Step(plan, s, c).Some?
    requires forall i | 0 <= i < |s| && i < BLOCK * n :: Step(plan, s, c).value[i] == a[i]
    requires forall i | BLOCK * n <= i < |s| :: Step(plan, s, c).value[i] == d[i]
    ensures Reaches(plan, s, [c] + BlockPlan(a, d, n), d)
  {
    RunBlockPlan(plan, Step(plan, s, c).value, a, d, n);
    RunCons(plan, s, c, BlockPlan(a, d, n));
  }

  lemma RunSingle(plan: Plan, s: Channels, c: ChMaskCntlPair)
    ensures Run(plan, s, [c]) == Step(plan, s, c)
  {
    RunCons(plan, s, c, []);
    assert [c] + [] == [c];
  }

  // Counting differing blocks.

  /** The number of blocks from lo up to hi in which the two states differ. */
  ghost function DiffCount(a: Channels, b: Channels, lo: nat, hi: nat): nat {
    if hi <= lo then 0 else DiffCount(a, b, lo, hi - 1) + (if Differs(a, b, hi - 1) then 1 else 0)
  }

  lemma {:induction false} BlockPlanLength(a: Channels, b: Channels, n: nat)
    ensures |BlockPlan(a, b, n)| == DiffCount(a, b, 0, n)
  {
    if n != 0 {
      BlockPlanLength(a, b, n - 1);
    }
  }

  lemma {:induction false} NoDifference(a: Channels, lo: nat, hi: nat)
    ensures DiffCount(a, a, lo, hi) == 0
  {
    if lo < hi {
      NoDifference(a, lo, hi - 1);
    }
  }

  /** Only what the states hold in blocks lo..hi matters. */
  lemma {:induction false} DiffCountLocal(a: Channels, a': Channels, b: Channels, b': Channels, lo: nat, hi: nat)
    requires forall k | lo <= k < hi :: Differs(a, b, k) <==> Differs(a', b', k)
    ensures DiffCount(a, b, lo, hi) == DiffCount(a', b', lo, hi)
  {
    if lo < hi {
      DiffCountLocal(a, a', b, b', lo, hi - 1);
    }
  }

  lemma {:induction false} DiffCountMonotone(a: Channels, a': Channels, b: Channels, lo: nat, hi: nat)
    requires forall k | lo <= k < hi && Differs(a, b, k) :: Differs(a', b, k)
    ensures DiffCount(a, b, lo, hi) <= DiffCount(a', b, lo, hi)
  {
    if lo < hi {
      DiffCountMonotone(a, a', b, lo, hi - 1);
    }
  }

  lemma {:induction false} DiffCountSplit(a: Channels, b: Channels, lo: nat, mid: nat, hi: nat)
    requires lo <= mid <= hi
    ensures DiffCount(a, b, lo, hi) == DiffCount(a, b, lo, mid) + DiffCount(a, b, mid, hi)
  {
    if mid < hi {
      DiffCountSplit(a, b, lo, mid, hi - 1);
    }
  }

  /** The states agree outside block k. */
  ghost predicate AgreeOutside(s: Channels, t: Channels, k: nat) {
    |s| == |t| && forall i | 0 <= i < |s| && i / BLOCK != k :: s[i] == t[i]
  }

  /** Editing one block changes the count by at most one, and not at all if the block is not counted. */
  lemma {:induction false} DiffCountEdit(s: Channels, t: Channels, d: Channels, k: nat, lo: nat, hi: nat)
    requires |s| == |d| && AgreeOutside(s, t, k)
    ensures DiffCount(s, d, lo, hi) <= DiffCount(t, d, lo, hi) + (if lo <= k < hi then 1 else 0)
  {
    if lo < hi {
      DiffCountEdit(s, t, d, k, lo, hi - 1);
      if k != hi - 1 {
        assert Differs(s, d, hi - 1) ==> Differs(t, d, hi - 1);
      }
    }
  }

  lemma {:induction false} DiffCountZero(a: Channels, b: Channels, n: nat)
    requires |a| == |b| && |a| <= BLOCK * n
    ensures DiffCount(a, b, 0, n) == 0 <==> a == b
  {
    if a == b {
      NoDifference(a, 0, n);
    } else {
      var i :| 0 <= i < |a| && a[i] != b[i];
      assert Differs(a, b, i / BLOCK);
      DiffCountAtLeast(a, b, i / BLOCK, 0, n);
    }
  }

  lemma {:induction false} DiffCountAtLeast(a: Channels, b: Channels, k: nat, lo: nat, hi: nat)
    requires lo <= k < hi && Differs(a, b, k)
    ensures DiffCount(a, b, lo, hi) >= 1
  {
    if k != hi - 1 {
      DiffCountAtLeast(a, b, k, lo, hi - 1);
    }
  }
}
