/** A lower bound on the length of every command sequence between two channel states.
    One command lowers the bound by at most one, so it works as a potential. */
module LowerBound {
  import opened Wrappers
  import opened ChannelMask
  import opened BlockPlanner

  /** The commands of a channel plan that reach further than one block. */
  datatype Reach = Reach(
    blocks: nat,       // all blocks
    overwritten: nat,  // blocks that every wide command overwrites
    off: bool,         // there is a command that disables all of these
    banks: bool)       // there is a command that sets them by sub-band

  function ReachOf(plan: Plan, off: bool, banks: bool): Reach {
    match plan
    case Ch16 => Reach(1, 1, false, false)
    case Ch48 => Reach(3, 3, off, false)
    case Ch64 => Reach(4, 4, off, false)
    case Ch72 => Reach(5, 4, off, banks)
    case Ch96 => Reach(6, 6, false, false)
  }

  /** The cntl by which a plan disables all channels. */
  function OffCntl(plan: Plan): nat {
    match plan
    case Ch48 => 4
    case Ch64 => 7
    case Ch72 => 7
    case _ => 0x100
  }

  /** Sequences of commands that respect what the planner may use. */
  ghost predicate Permitted(plan: Plan, off: bool, banks: bool, cmds: seq<ChMaskCntlPair>) {
    forall c | c in cmds ::
      && (c.cntl == OffCntl(plan) ==> off)
      && (plan == Ch72 && c.cntl == 5 ==> banks)
  }

  ghost predicate AllAre(s: Channels, v: bool, n: nat) {
    forall i | 0 <= i < |s| && i < n :: s[i] == v
  }

  ghost predicate ByBanks(s: Channels, n: nat) {
    forall i, j | 0 <= i < |s| && 0 <= j < |s| && i < n && j < n && i / 8 == j / 8 :: s[i] == s[j]
  }

  /** Sub-bands all of whose channels are wanted are on, the others off. */
  ghost function FullBanks(d: Channels): (r: Channels)
    ensures |r| == |d|
  {
    seq(|d|, i requires 0 <= i < |d| => forall j | 0 <= j < |d| && j / 8 == i / 8 :: d[j])
  }

  ghost function Uniform(v: bool, d: Channels): (r: Channels)
  {
    Repeat(v, |d|)
  }

  function Min(a: nat, b: nat): nat {
    if a <= b then a else b
  }

  ghost function Bound(r: Reach, s: Channels, d: Channels): nat {
    var direct := DiffCount(s, d, 0, r.overwritten) + DiffCount(s, d, r.overwritten, r.blocks);
    var viaOn := 1 + DiffCount(Uniform(true, d), d, 0, r.overwritten);
    var viaOff := 1 + DiffCount(Uniform(false, d), d, 0, r.overwritten);
    var viaBanks := 1 + DiffCount(FullBanks(d), d, 0, r.overwritten) + DiffCount(s, d, r.overwritten, r.blocks);
    var m := Min(direct, viaOn);
    var m := if r.off then Min(m, viaOff) else m;
    if r.banks then Min(m, viaBanks) else m
  }

  /** What one permitted command can do to a state. */
  ghost predicate Edit(r: Reach, s: Channels, t: Channels) {
    || (exists k: nat | k < r.blocks :: AgreeOutside(s, t, k))
    || AllAre(t, true, BLOCK * r.overwritten)
    || (r.off && AllAre(t, false, BLOCK * r.overwritten))
    || (r.banks && ByBanks(t, BLOCK * r.overwritten)
        && forall i | BLOCK * r.overwritten <= i < |t| && i < |s| :: s[i] == t[i])
  }

  lemma StepEdits(plan: Plan, off: bool, banks: bool, s: Channels, c: ChMaskCntlPair)
    requires |s| == plan.Channels() && Permitted(plan, off, banks, [c])
    requires Step(plan, s, c).Some?
    ensures Edit(ReachOf(plan, off, banks), s, Step(plan, s, c).value)
  {
    assert c in [c];
    if c.cntl < plan.Blocks() {
      StepBlock(plan, s, c);
      assert AgreeOutside(s, Step(plan, s, c).value, c.cntl);
    }
  }

  /** Wherever a state follows the sub-bands, it is no closer to d than FullBanks(d). */
  lemma FullBanksClosest(t: Channels, d: Channels, n: nat)
    requires |t| == |d| && BLOCK * n <= |d| && |d| % 8 == 0 && ByBanks(t, BLOCK * n)
    ensures DiffCount(FullBanks(d), d, 0, n) <= DiffCount(t, d, 0, n)
  {
    hide FullBanks, Differs, ByBanks;
    forall k | 0 <= k < n && Differs(FullBanks(d), d, k)
      ensures Differs(t, d, k)
    {
      FullBanksClosestIn(t, d, n, k);
    }
    DiffCountMonotone(FullBanks(d), t, d, 0, n);
  }

  lemma FullBanksClosestIn(t: Channels, d: Channels, n: nat, k: nat)
    requires |t| == |d| && BLOCK * n <= |d| && ByBanks(t, BLOCK * n)
    requires k < n && Differs(FullBanks(d), d, k)
    ensures Differs(t, d, k)
  {
    var i :| 0 <= i < |d| && i / BLOCK == k && FullBanks(d)[i] != d[i];
    var j :| 0 <= j < |d| && j / 8 == i / 8 && !d[j];
    BankInBlock(i);
    BankInBlock(j);
    assert i < BLOCK * n && j < BLOCK * n;
    assert t[i] == t[j] && d[i] != d[j];
  }

  lemma BankInBlock(i: nat)
    ensures i / BLOCK == i / 8 / 2
  {
  }

  lemma UniformDistance(t: Channels, v: bool, d: Channels, n: nat)
    requires |t| == |d| && AllAre(t, v, BLOCK * n)
    ensures DiffCount(t, d, 0, n) == DiffCount(Uniform(v, d), d, 0, n)
  {
    forall k | 0 <= k < n
      ensures Differs(t, d, k) <==> Differs(Uniform(v, d), d, k)
    {
      assert forall i | 0 <= i < |d| && i / BLOCK == k :: t[i] == Uniform(v, d)[i];
    }
    DiffCountLocal(t, Uniform(v, d), d, d, 0, n);
  }

  lemma TailDistance(s: Channels, t: Channels, d: Channels, lo: nat, hi: nat)
    requires |s| == |t| == |d| && forall i | BLOCK * lo <= i < |t| :: s[i] == t[i]
    ensures DiffCount(s, d, lo, hi) == DiffCount(t, d, lo, hi)
  {
    forall k | lo <= k < hi
      ensures Differs(s, d, k) <==> Differs(t, d, k)
    {
      assert forall i | 0 <= i < |d| && i / BLOCK == k :: s[i] == t[i];
    }
    DiffCountLocal(s, t, d, d, lo, hi);
  }

  lemma {:induction false} DiffCountAtMost(a: Channels, b: Channels, lo: nat, hi: nat)
    requires lo <= hi
    ensures DiffCount(a, b, lo, hi) <= hi - lo
  {
    if lo < hi {
      DiffCountAtMost(a, b, lo, hi - 1);
    }
  }

  /** One command lowers the bound by at most one. */
  lemma EditLowersByOne(r: Reach, s: Channels, t: Channels, d: Channels)
    requires |s| == |t| == |d| && |d| % 8 == 0 && BLOCK * r.overwritten <= |d|
    requires r.overwritten <= r.blocks <= r.overwritten + 1
    requires Edit(r, s, t)
    ensures Bound(r, s, d) <= Bound(r, t, d) + 1
  {
    var g, n := r.overwritten, r.blocks;
    DiffCountAtMost(s, d, g, n);
    if k: nat :| k < n && AgreeOutside(s, t, k) {
      DiffCountEdit(s, t, d, k, 0, g);
      DiffCountEdit(s, t, d, k, g, n);
    } else {
      WideEdit(r, s, t, d);
    }
  }

  lemma WideEdit(r: Reach, s: Channels, t: Channels, d: Channels)
    requires |s| == |t| == |d| && |d| % 8 == 0 && BLOCK * r.overwritten <= |d|
    requires DiffCount(s, d, r.overwritten, r.blocks) <= 1
    requires Edit(r, s, t) && !exists k: nat | k < r.blocks :: AgreeOutside(s, t, k)
    ensures Bound(r, s, d) <= Bound(r, t, d) + 1
  {
    var g, n := r.overwritten, r.blocks;
    if AllAre(t, true, BLOCK * g) {
      UniformDistance(t, true, d, g);
    } else if r.off && AllAre(t, false, BLOCK * g) {
      UniformDistance(t, false, d, g);
    } else {
      FullBanksClosest(t, d, g);
      TailDistance(s, t, d, g, n);
    }
  }

  /** Every sequence of permitted commands from s to d is at least as long as the bound. */
  lemma {:induction false} EverySequence(plan: Plan, off: bool, banks: bool, s: Channels, d: Channels,
      cmds: seq<ChMaskCntlPair>)
    requires |s| == |d| == plan.Channels()
    requires Permitted(plan, off, banks, cmds) && Run(plan, s, cmds).Some?
    ensures Bound(ReachOf(plan, off, banks), s, d) <= Bound(ReachOf(plan, off, banks), Run(plan, s, cmds).value, d) + |cmds|
  {
    if cmds != [] {
      var init, last := cmds[..|cmds| - 1], cmds[|cmds| - 1];
      EverySequence(plan, off, banks, s, d, init);
      var t := Run(plan, s, init).value;
      StepEdits(plan, off, banks, t, last);
      EditLowersByOne(ReachOf(plan, off, banks), t, Run(plan, s, cmds).value, d);
    }
  }

  lemma LowerBoundHolds(plan: Plan, off: bool, banks: bool, s: Channels, d: Channels, cmds: seq<ChMaskCntlPair>)
    requires |s| == |d| == plan.Channels()
    requires Permitted(plan, off, banks, cmds) && Reaches(plan, s, cmds, d)
    ensures Bound(ReachOf(plan, off, banks), s, d) <= |cmds|
  {
    EverySequence(plan, off, banks, s, d, cmds);
    var r := ReachOf(plan, off, banks);
    NoDifference(d, 0, r.overwritten);
    NoDifference(d, r.overwritten, r.blocks);
  }

  /** Being no longer than any permitted sequence of commands with the same effect. */
  ghost predicate Shortest(plan: Plan, off: bool, banks: bool, s: Channels, d: Channels, n: nat) {
    forall cmds | Permitted(plan, off, banks, cmds) && Reaches(plan, s, cmds, d) :: n <= |cmds|
  }

  lemma NoLongerThanBound(plan: Plan, off: bool, banks: bool, s: Channels, d: Channels, n: nat)
    requires |s| == |d| == plan.Channels()
    requires n <= Bound(ReachOf(plan, off, banks), s, d)
    ensures Shortest(plan, off, banks, s, d, n)
  {
    forall cmds | Permitted(plan, off, banks, cmds) && Reaches(plan, s, cmds, d)
      ensures n <= |cmds|
    {
      LowerBoundHolds(plan, off, banks, s, d, cmds);
    }
  }
}
