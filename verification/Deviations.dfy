/** Concrete inputs on which the planners do not do what their documentation promises. The modules
    of the planners prove for all inputs exactly when this happens. */
module Deviations {
  import opened Wrappers
  import opened ChannelMask
  import opened BlockPlanner
  import opened LowerBound
  import opened UniformPlanners
  import opened SubBandPlanner

  lemma AtMostOneBlock(s: Channels, d: Channels, k: nat, n: nat)
    requires |s| == |d| && AgreeOutside(s, d, k)
    ensures DiffCount(s, d, 0, n) <= 1
  {
    DiffCountEdit(s, d, d, k, 0, n);
    NoDifference(d, 0, n);
  }

  /** A change of channel 0 and channel 64: whatever the flags, channel 64 stays enabled. */
  lemma Channel64StaysOn(banks: bool, atomic: bool, pairs: seq<ChMaskCntlPair>)
    requires var s: Channels72 := Repeat(true, 72);
             var d: Channels72 := s[0 := false][64 := false];
             Follows(ChosenRoute(s, d, banks, atomic), s, d, pairs)
    ensures var s: Channels72 := Repeat(true, 72);
            !Reaches(Ch72, s, pairs, s[0 := false][64 := false])
  {
    var s: Channels72 := Repeat(true, 72);
    var d: Channels72 := s[0 := false][64 := false];
    assert s[0] && !d[0] && d[1] && MissesChannel64(s, d);
    AtMostOneBlock(s, Heard(s, d), 0, 5);
    BlockPlanLength(s, Heard(s, d), 5);
    PlanMeaning(s, d, banks, atomic, pairs);
  }

  /** Moving the only enabled channel to a later block mutes the device in between. */
  lemma MovingUpMutes(banks: bool, pairs: seq<ChMaskCntlPair>)
    requires var off: Channels72 := Repeat(false, 72);
             Follows(ChosenRoute(off[0 := true], off[16 := true], banks, false), off[0 := true], off[16 := true], pairs)
    ensures !NeverMuted(Repeat(false, 72)[0 := true], pairs)
  {
    var off: Channels72 := Repeat(false, 72);
    var s: Channels72, d: Channels72 := off[0 := true], off[16 := true];
    assert s[0] && d[16] && !d[0];
    assert HandsOver(s, d, 1);
    DiffCountEdit(s, off, d, 0, 0, 5);
    DiffCountEdit(off, d, d, 1, 0, 5);
    NoDifference(d, 0, 5);
    BlockPlanLength(s, Heard(s, d), 5);
    assert !SomeBankFull(d) by {
      forall i: nat | i < 8
        ensures !FullBank(d, i)
      {
        assert (8 * i + 1) / 8 == i;
        assert !d[8 * i + 1];
      }
    }
    CostsAreLengths(s, d);
    MixedNarrow(d, true);
    MixedNarrow(d, false);
    StepwiseNeverMuted(s, d, banks, pairs);
  }

  /** Two channels in different blocks are to be enabled to have all enabled: one command would do. */
  lemma TwoCommandsForOne()
    ensures var d := Repeat(true, 48);
            |TwoSidedPlan(Ch48, d[0 := false][16 := false], d)| == 2 &&
            !Shortest(Ch48, true, true, d[0 := false][16 := false], d, 2)
  {
    var d := Repeat(true, 48);
    var s := d[0 := false][16 := false];
    assert s[0] != d[0] && s[16] != d[16];
    assert Differs(s, d, 0) && Differs(s, d, 1) && !Differs(s, d, 2);
    assert DiffCount(s, d, 0, 1) == 1;
    assert DiffCount(s, d, 0, 2) == 2;
    BlockPlanLength(s, d, Ch48.Blocks());
    OneCommandSuffices(Ch48, s, d);
  }

  /** The number of differing blocks among the first four, and among all five. */
  lemma CountBlocks(a: Channels, b: Channels)
    ensures DiffCount(a, b, 0, 4) ==
            (if Differs(a, b, 0) then 1 else 0) + (if Differs(a, b, 1) then 1 else 0) +
            (if Differs(a, b, 2) then 1 else 0) + (if Differs(a, b, 3) then 1 else 0)
    ensures DiffCount(a, b, 0, 5) == DiffCount(a, b, 0, 4) + (if Differs(a, b, 4) then 1 else 0)
    ensures DiffCount(a, b, 0, 3) == DiffCount(a, b, 0, 4) - (if Differs(a, b, 3) then 1 else 0)
  {
    assert DiffCount(a, b, 0, 1) == if Differs(a, b, 0) then 1 else 0;
    assert DiffCount(a, b, 0, 2) == DiffCount(a, b, 0, 1) + (if Differs(a, b, 1) then 1 else 0);
  }

  function LowerHalf(): Channels72 {
    seq(72, i => i < 32)
  }

  function UpperHalf(): Channels72 {
    seq(72, i => 32 <= i < 64)
  }

  lemma HalfOfUniform(v: bool)
    ensures |UniformTail(v, LowerHalf())| == 2
  {
    var u, d := Uniform(v, LowerHalf()), LowerHalf();
    assert u[0] == u[16] == u[32] == u[48] == v && d[0] && d[16] && !d[32] && !d[48];
    CountBlocks(u, d);
    BlockPlanLength(u, d, 4);
  }

  /** Moving from the upper to the lower half of the 125 kHz channels, for a device that takes the
      commands one by one: four commands are generated, although three that start with ChMaskCntl 6
      would do. */
  lemma FourCommandsForThree(pairs: seq<ChMaskCntlPair>)
    requires Follows(ChosenRoute(UpperHalf(), LowerHalf(), false, false), UpperHalf(), LowerHalf(), pairs)
    ensures |pairs| == 4 && Reaches(Ch72, UpperHalf(), pairs, LowerHalf())
    ensures !Shortest(Ch72, false, false, UpperHalf(), LowerHalf(), 4)
  {
    hide BlockPlan, Run, TrueCount, DiffCount, MissesChannel64, LowerHalf, UpperHalf;
    SwapHalvesRoute();
    FollowsLength(Sorted, UpperHalf(), LowerHalf(), pairs);
    PlanMeaning(UpperHalf(), LowerHalf(), false, false, pairs);
    StepwisePlanShortest(UpperHalf(), LowerHalf(), pairs);
  }

  lemma SwapHalvesDirect()
    ensures |DirectPlan(UpperHalf(), LowerHalf())| == 4 && !MissesChannel64(UpperHalf(), LowerHalf())
  {
    var s, d := UpperHalf(), LowerHalf();
    assert s[0] != d[0] && s[16] != d[16] && s[32] != d[32] && s[48] != d[48] && s[64] == d[64];
    assert !Differs(s, d, 4);
    CountBlocks(s, d);
    BlockPlanLength(s, d, 5);
  }

  lemma SwapHalvesRoute()
    ensures ChosenRoute(UpperHalf(), LowerHalf(), false, false) == Sorted
    ensures PassesOverOnFirst(UpperHalf(), LowerHalf()) && !MissesChannel64(UpperHalf(), LowerHalf())
    ensures RouteLength(UpperHalf(), LowerHalf(), Sorted) == 4 && UpperHalf() != LowerHalf()
  {
    hide BlockPlan, DiffCount, MissesChannel64;
    SwapHalvesDirect();
    CostsAreLengths(UpperHalf(), LowerHalf());
    HalfOfUniform(true);
    HalfOfUniform(false);
    assert LowerHalf()[0] && !LowerHalf()[32] && !UpperHalf()[0];
  }

  // The Network Server's own decoding.

  /** The Network Server's record of the device's channels, of which it need not know all. */
  type Record = seq<Option<bool>>

  ghost predicate Knows(r: Record, i: nat) {
    i < |r| && r[i].Some?
  }

  /** The record says of each channel it knows what the device's state is. */
  ghost predicate Describes(r: Record, s: Channels) {
    forall i | 0 <= i < |r| && i < |s| && r[i].Some? :: r[i].value == s[i]
  }

  ghost predicate SameKnown(a: Record, b: Record) {
    |a| == |b| && forall i | 0 <= i < |a| :: a[i].Some? <==> b[i].Some?
  }

  ghost predicate EnablesUnknownIn(r: Record, m: map<nat, bool>) {
    exists i | i in m :: m[i] && !Knows(r, i)
  }

  /** On an acknowledgement the Network Server overwrites what it knows. It gives up if a channel that
      it does not know is enabled. */
  ghost function Acknowledge(r: Record, m: map<nat, bool>): Option<Record> {
    if EnablesUnknownIn(r, m) then None
    else Some(seq(|r|, i requires 0 <= i < |r| => if Knows(r, i) && i in m then Some(m[i]) else r[i]))
  }

  ghost function AcknowledgeAll(plan: Plan, r: Record, cmds: seq<ChMaskCntlPair>): Option<Record> {
    if cmds == [] then Some(r)
    else
      match AcknowledgeAll(plan, r, cmds[..|cmds| - 1])
      case None => None
      case Some(t) =>
        match Parse(plan, cmds[|cmds| - 1])
        case Failure(_) => None
        case Success(m) => Acknowledge(t, m)
  }

  /** The command enables a channel that is unknown to the record. */
  ghost predicate EnablesUnknown(plan: Plan, r: Record, c: ChMaskCntlPair) {
    match Parse(plan, c)
    case Failure(_) => false
    case Success(m) => EnablesUnknownIn(r, m)
  }

  lemma SameUnknown(plan: Plan, a: Record, b: Record, c: ChMaskCntlPair)
    requires SameKnown(a, b)
    ensures EnablesUnknown(plan, a, c) <==> EnablesUnknown(plan, b, c)
  {
    hide Parse;
    assert forall i: nat :: Knows(a, i) <==> Knows(b, i);
  }

  lemma AcknowledgeOne(plan: Plan, r: Record, s: Channels, c: ChMaskCntlPair)
    requires Describes(r, s) && Parse(plan, c).Success?
    ensures var after := Acknowledge(r, Parse(plan, c).value);
            && (after.Some? <==> !EnablesUnknown(plan, r, c))
            && (after.Some? ==> SameKnown(after.value, r) && Describes(after.value, Step(plan, s, c).value))
  {
    hide Parse;
  }

  lemma NothingToAcknowledge(plan: Plan, r: Record)
    ensures NoneUnknown(plan, r, []) && SameKnown(r, r)
  {
  }

  /** One more command is acknowledged. */
  lemma AcknowledgeNext(plan: Plan, r: Record, s: Channels, init: seq<ChMaskCntlPair>, last: ChMaskCntlPair)
    requires AcknowledgeAll(plan, r, init).Some? && Run(plan, s, init).Some?
    requires Run(plan, s, init + [last]).Some?
    ensures Parse(plan, last).Success?
    ensures AcknowledgeAll(plan, r, init + [last]) == Acknowledge(AcknowledgeAll(plan, r, init).value, Parse(plan, last).value)
    ensures Run(plan, s, init + [last]) == Step(plan, Run(plan, s, init).value, last)
  {
    assert (init + [last])[..|init + [last]| - 1] == init;
  }

  lemma SameKnownThrough(a: Record, b: Record, c: Record)
    requires SameKnown(a, b) && SameKnown(b, c)
    ensures SameKnown(a, c)
  {
  }

  ghost predicate NoneUnknown(plan: Plan, r: Record, cmds: seq<ChMaskCntlPair>) {
    forall c | c in cmds :: !EnablesUnknown(plan, r, c)
  }

  lemma NoneUnknownBut(plan: Plan, r: Record, init: seq<ChMaskCntlPair>, last: ChMaskCntlPair)
    ensures NoneUnknown(plan, r, init + [last]) <==> NoneUnknown(plan, r, init) && !EnablesUnknown(plan, r, last)
  {
    assert last in init + [last];
    assert forall c | c in init :: c in init + [last];
  }

  /** Whatever the Network Server knows of the device's channels: it can record the acknowledgement of
      all commands that the device accepts exactly if none of them enables a channel it does not know,
      and then its record describes the device's new state. */
  lemma {:induction false} RecordFollowsDevice(plan: Plan, r: Record, s: Channels, cmds: seq<ChMaskCntlPair>)
    requires Describes(r, s) && Run(plan, s, cmds).Some?
    ensures AcknowledgeAll(plan, r, cmds).Some? <==> NoneUnknown(plan, r, cmds)
    ensures var after := AcknowledgeAll(plan, r, cmds);
            after.Some? ==> SameKnown(after.value, r) && Describes(after.value, Run(plan, s, cmds).value)
  {
    hide Parse, Step, Describes, EnablesUnknown, Acknowledge, SameKnown, NoneUnknown;
    if cmds == [] {
      NothingToAcknowledge(plan, r);
    } else {
      var init, last := cmds[..|cmds| - 1], cmds[|cmds| - 1];
      RecordFollowsDevice(plan, r, s, init);
      assert cmds == init + [last];
      NoneUnknownBut(plan, r, init, last);
      var before := AcknowledgeAll(plan, r, init);
      if before.Some? {
        AcknowledgeNext(plan, r, s, init, last);
        SameUnknown(plan, before.value, r, last);
        AcknowledgeOne(plan, before.value, Run(plan, s, init).value, last);
        var after := Acknowledge(before.value, Parse(plan, last).value);
        if after.Some? {
          SameKnownThrough(after.value, before.value, r);
        }
      }
    }
  }

  /** The record of a Network Server that knows exactly the channels of the plan. */
  function FullRecord(s: Channels): Record {
    seq(|s|, i requires 0 <= i < |s| => Some(s[i]))
  }

  /** With all channels known, only the 48 and 64 channel commands that enable everything cannot be
      recorded: they enable eight channels that do not exist. */
  lemma EnablesNonexistent(plan: Plan, s: Channels, c: ChMaskCntlPair)
    requires |s| == plan.Channels() && Parse(plan, c).Success?
    ensures EnablesUnknown(plan, FullRecord(s), c) <==> (plan == Ch48 || plan == Ch64) && c.cntl == UniformCntl(plan, true)
  {
    var m := Parse(plan, c).value;
    if (plan == Ch48 || plan == Ch64) && c.cntl == UniformCntl(plan, true) {
      assert |s| in m && m[|s|] && !Knows(FullRecord(s), |s|);
    } else if EnablesUnknownIn(FullRecord(s), m) {
      assert false;
    }
  }

  lemma DescribedFully(r: Record, s: Channels, t: Channels)
    requires |s| == |t| && SameKnown(r, FullRecord(s)) && Describes(r, t)
    ensures r == FullRecord(t)
  {
    forall i | 0 <= i < |r|
      ensures r[i] == FullRecord(t)[i]
    {
      assert FullRecord(s)[i].Some?;
    }
  }

  /** The generated plan enables all channels first. */
  ghost predicate EnablesAllFirst(plan: Plan, s: Channels, d: Channels) {
    var n := plan.Blocks();
    var direct, on, off := DiffCount(s, d, 0, n), 1 + DiffCount(Uniform(true, d), d, 0, n), 1 + DiffCount(Uniform(false, d), d, 0, n);
    direct > 2 && on < off && on < direct
  }

  lemma EnablingPlans(plan: Plan, s: Channels, d: Channels)
    requires plan == Ch48 || plan == Ch64
    requires |s| == |d| == plan.Channels()
    ensures EnablesAllFirst(plan, s, d) <==> exists c | c in TwoSidedPlan(plan, s, d) :: c.cntl == UniformCntl(plan, true)
  {
    RunDirect(plan, s, d);
    RunUniformFirst(plan, s, true, d);
    RunUniformFirst(plan, s, false, d);
    BlockPlanCommands(s, d, plan.Blocks());
    BlockPlanCommands(Uniform(false, d), d, plan.Blocks());
    if EnablesAllFirst(plan, s, d) {
      assert UniformCommand(plan, true) in TwoSidedPlan(plan, s, d);
    }
  }

  /** For the plans generated for 48 and 64 channels: once the device has acknowledged, the Network
      Server records the desired state, unless the plan enables all channels first. */
  lemma PlansRecorded(plan: Plan, s: Channels, d: Channels)
    requires plan == Ch48 || plan == Ch64
    requires |s| == |d| == plan.Channels()
    ensures AcknowledgeAll(plan, FullRecord(s), TwoSidedPlan(plan, s, d)) ==
            if EnablesAllFirst(plan, s, d) then None else Some(FullRecord(d))
  {
    var cmds := TwoSidedPlan(plan, s, d);
    TwoSidedPlanCorrect(plan, s, d);
    EnablingPlans(plan, s, d);
    RecordFollowsDevice(plan, FullRecord(s), s, cmds);
    forall c | c in cmds
      ensures EnablesUnknown(plan, FullRecord(s), c) <==> c.cntl == UniformCntl(plan, true)
    {
      AcceptedCommand(plan, s, cmds, c);
      EnablesNonexistent(plan, s, c);
    }
    var after := AcknowledgeAll(plan, FullRecord(s), cmds);
    if after.Some? {
      DescribedFully(after.value, s, d);
    }
  }

  lemma {:induction false} AcceptedCommand(plan: Plan, s: Channels, cmds: seq<ChMaskCntlPair>, c: ChMaskCntlPair)
    requires Run(plan, s, cmds).Some? && c in cmds
    ensures Parse(plan, c).Success?
  {
    if c != cmds[|cmds| - 1] {
      assert c in cmds[..|cmds| - 1];
      AcceptedCommand(plan, s, cmds[..|cmds| - 1], c);
    }
  }

  /** From no channel to all but channel 0: the plan enables all channels first, and the Network Server
      cannot record that it was carried out. */
  lemma PlanNotRecorded()
    ensures var off, d := Repeat(false, 48), Repeat(true, 48)[0 := false];
            && Reaches(Ch48, off, TwoSidedPlan(Ch48, off, d), d)
            && AcknowledgeAll(Ch48, FullRecord(off), TwoSidedPlan(Ch48, off, d)) == None
  {
    hide Run, BlockPlan, TwoSidedPlan, AcknowledgeAll, EnablesAllFirst;
    var off, d := Repeat(false, 48), Repeat(true, 48)[0 := false];
    AllButOne();
    TwoSidedPlanCorrect(Ch48, off, d);
    PlansRecorded(Ch48, off, d);
  }

  lemma AllButOne()
    ensures EnablesAllFirst(Ch48, Repeat(false, 48), Repeat(true, 48)[0 := false])
  {
    var off, d := Repeat(false, 48), Repeat(true, 48)[0 := false];
    assert Uniform(false, d) == off;
    assert d[1] && d[16] && d[32] && !d[0];
    CountBlocks(off, d);
    CountBlocks(Uniform(true, d), d);
  }
}
