/** The planner for 72 channels: 64 channels of 125 kHz in four blocks and eight of 500 kHz
    in block 4. It may first enable or disable all 125 kHz channels, or set them by sub-band. */
module SubBandPlanner {
  import opened Wrappers
  import opened ChannelMask
  import opened BlockPlanner
  import opened LowerBound

  const NARROW := 64  // the number of 125 kHz channels

  type Channels72 = s: Channels | |s| == 72 witness Repeat(false, 72)

  // What the planner sees of the desired state.

  /** The planner looks for a change of the 500 kHz channels from channel 65 on. */
  ghost predicate WidebandSeen(s: Channels72, d: Channels72) {
    exists i | NARROW < i < 72 :: s[i] != d[i]
  }

  /** Channel 64 is the only 500 kHz channel to change. */
  ghost predicate MissesChannel64(s: Channels72, d: Channels72) {
    s[NARROW] != d[NARROW] && !WidebandSeen(s, d)
  }

  /** The state that the block commands lead to. */
  ghost function Heard(s: Channels72, d: Channels72): Channels72 {
    if MissesChannel64(s, d) then d[NARROW := s[NARROW]] else d
  }

  function WidebandPair(cntl: Byte, d: Channels72): (c: ChMaskCntlPair)
  {
    ChMaskCntlPair(cntl, BlockMask(d, 4))
  }

  // The routes from s to d.

  datatype Route = Unchanged | Off | On | Direct | OnFirst | OffFirst | Sorted | BanksFirst

  ghost function DirectPlan(s: Channels72, d: Channels72): seq<ChMaskCntlPair> {
    BlockPlan(s, Heard(s, d), 5)
  }

  ghost function UniformTail(v: bool, d: Channels72): seq<ChMaskCntlPair> {
    BlockPlan(Uniform(v, d), d, 4)
  }

  /** The state after the sub-band command. */
  ghost function BankBase(s: Channels72, d: Channels72): Channels72 {
    FullBanks(d)[..NARROW] + s[NARROW..]
  }

  ghost function BanksTail(s: Channels72, d: Channels72): seq<ChMaskCntlPair> {
    BlockPlan(BankBase(s, d), Heard(s, d), 5)
  }

  ghost predicate FullBank(d: Channels72, i: nat) {
    i < 8 && forall j | 0 <= j < NARROW && j / 8 == i :: d[j]
  }

  ghost predicate SomeBankFull(d: Channels72) {
    exists i :: FullBank(d, i)
  }

  ghost function BankMask(d: Channels72): ChMask {
    seq(16, i => 0 <= i && FullBank(d, i))
  }

  ghost function GenericRoute(s: Channels72, d: Channels72, atomic: bool): Route {
    var direct, on, off := |DirectPlan(s, d)|, 1 + |UniformTail(true, d)|, 1 + |UniformTail(false, d)|;
    if s == d then Unchanged
    else if AllAre(d, false, NARROW) then Off
    else if AllAre(d, true, NARROW) then On
    else if direct <= 2 || (direct <= on && direct <= off) then Direct
    else if on < off then OnFirst
    else if !atomic then Sorted
    else OffFirst
  }

  ghost function RouteLength(s: Channels72, d: Channels72, r: Route): nat {
    match r
    case Unchanged => 1
    case Off => 1
    case On => 1
    case Direct => |DirectPlan(s, d)|
    case Sorted => |DirectPlan(s, d)|
    case OnFirst => 1 + |UniformTail(true, d)|
    case OffFirst => 1 + |UniformTail(false, d)|
    case BanksFirst => 1 + |BanksTail(s, d)|
  }

  ghost function ChosenRoute(s: Channels72, d: Channels72, banks: bool, atomic: bool): Route {
    var g := GenericRoute(s, d, atomic);
    var n := RouteLength(s, d, g);
    if banks && n > 1 && SomeBankFull(d) && 1 + |BanksTail(s, d)| < n then BanksFirst else g
  }

  function Enabled(c: ChMaskCntlPair): nat {
    TrueCount(c.mask)
  }

  ghost predicate Descending(pairs: seq<ChMaskCntlPair>) {
    forall i, j | 0 <= i < j < |pairs| :: Enabled(pairs[i]) >= Enabled(pairs[j])
  }

  /** The command lists a route allows; only the order of a sorted list is left open. */
  ghost predicate Follows(r: Route, s: Channels72, d: Channels72, pairs: seq<ChMaskCntlPair>) {
    match r
    case Unchanged => pairs == [ChMaskCntlPair(0, BlockMask(d, 0))]
    case Off => pairs == [WidebandPair(7, d)]
    case On => pairs == [WidebandPair(6, d)]
    case Direct => pairs == DirectPlan(s, d)
    case OnFirst => pairs == [WidebandPair(6, d)] + UniformTail(true, d)
    case OffFirst => pairs == [WidebandPair(7, d)] + UniformTail(false, d)
    case Sorted => multiset(pairs) == multiset(DirectPlan(s, d)) && Descending(pairs)
    case BanksFirst => pairs == [ChMaskCntlPair(5, BankMask(d))] + BanksTail(s, d)
  }

  // Meaning.

  lemma WideStep(s: Channels72, d: Channels72, v: bool)
    ensures var t := Step(Ch72, s, WidebandPair(if v then 6 else 7, d));
            && t.Some?
            && AllAre(t.value, v, NARROW)
            && forall i | NARROW <= i < 72 :: t.value[i] == d[i]
  {
  }

  lemma BanksStep(s: Channels72, d: Channels72)
    ensures Step(Ch72, s, ChMaskCntlPair(5, BankMask(d))) == Some(BankBase(s, d))
  {
    var t := Step(Ch72, s, ChMaskCntlPair(5, BankMask(d))).value;
    forall i | 0 <= i < NARROW
      ensures t[i] == BankBase(s, d)[i]
    {
      assert t[i] == FullBank(d, i / 8);
      assert forall j | 0 <= j < 72 && j / 8 == i / 8 :: j < NARROW;
      assert BankBase(s, d)[i] == FullBanks(d)[i];
    }
    assert t == BankBase(s, d);
  }

  ghost predicate ByBlocksOnly(r: Route) {
    r == Direct || r == Sorted || r == BanksFirst
  }

  /** The state a list of commands on a given route leads to. */
  lemma RouteMeaning(r: Route, s: Channels72, d: Channels72, pairs: seq<ChMaskCntlPair>)
    requires Follows(r, s, d, pairs)
    requires r == Unchanged ==> s == d
    requires r == On ==> AllAre(d, true, NARROW)
    requires r == Off ==> AllAre(d, false, NARROW)
    ensures Reaches(Ch72, s, pairs, if ByBlocksOnly(r) then Heard(s, d) else d)
  {
    match r
    case Unchanged =>
      RunSingle(Ch72, s, pairs[0]);
      StepBlock(Ch72, s, pairs[0]);
      assert WriteBlock(s, 0, pairs[0].mask) == d;
    case Off =>
      RunSingle(Ch72, s, pairs[0]);
      WideStep(s, d, false);
      assert Step(Ch72, s, pairs[0]).value == d;
    case On =>
      RunSingle(Ch72, s, pairs[0]);
      WideStep(s, d, true);
      assert Step(Ch72, s, pairs[0]).value == d;
    case Direct => RunBlockPlan(Ch72, s, s, Heard(s, d), 5);
    case OnFirst => UniformFirstMeaning(s, d, true);
    case OffFirst => UniformFirstMeaning(s, d, false);
    case Sorted =>
      RunBlockPlan(Ch72, s, s, Heard(s, d), 5);
      BlockPlanCommands(s, Heard(s, d), 5);
      OrderIndependence(Ch72, s, DirectPlan(s, d), pairs);
    case BanksFirst =>
      BanksStep(s, d);
      RunBlockPlan(Ch72, BankBase(s, d), BankBase(s, d), Heard(s, d), 5);
      RunCons(Ch72, s, ChMaskCntlPair(5, BankMask(d)), BanksTail(s, d));
  }

  lemma UniformFirstMeaning(s: Channels72, d: Channels72, v: bool)
    ensures Reaches(Ch72, s, [WidebandPair(if v then 6 else 7, d)] + UniformTail(v, d), d)
  {
    var c := WidebandPair(if v then 6 else 7, d);
    WideStep(s, d, v);
    RunBlockPlan(Ch72, Step(Ch72, s, c).value, Uniform(v, d), d, 4);
    RunCons(Ch72, s, c, UniformTail(v, d));
  }

  /** The route does not miss a change of channel 64. */
  ghost predicate Arrives(r: Route, s: Channels72, d: Channels72) {
    !(MissesChannel64(s, d) && ByBlocksOnly(r))
  }

  /** The commands lead to the desired state exactly if channel 64 is not missed, or the route
      sends all 500 kHz channels along with a command for the 125 kHz channels. */
  lemma PlanMeaning(s: Channels72, d: Channels72, banks: bool, atomic: bool, pairs: seq<ChMaskCntlPair>)
    requires Follows(ChosenRoute(s, d, banks, atomic), s, d, pairs)
    ensures Reaches(Ch72, s, pairs, d) <==> Arrives(ChosenRoute(s, d, banks, atomic), s, d)
    ensures Reaches(Ch72, s, pairs, d) <==> Attains(s, d, banks, atomic)
  {
    hide Arrives, Attains;
    assert Reaches(Ch72, s, pairs, d) <==> Arrives(ChosenRoute(s, d, banks, atomic), s, d) by {
      ReachesIfArrives(s, d, banks, atomic, pairs);
    }
    ArrivesExactly(s, d, banks, atomic);
  }

  lemma ReachesIfArrives(s: Channels72, d: Channels72, banks: bool, atomic: bool, pairs: seq<ChMaskCntlPair>)
    requires Follows(ChosenRoute(s, d, banks, atomic), s, d, pairs)
    ensures Reaches(Ch72, s, pairs, d) <==> Arrives(ChosenRoute(s, d, banks, atomic), s, d)
  {
    RouteMeaning(ChosenRoute(s, d, banks, atomic), s, d, pairs);
  }

  // Length.

  lemma FollowsLength(r: Route, s: Channels72, d: Channels72, pairs: seq<ChMaskCntlPair>)
    requires Follows(r, s, d, pairs)
    ensures |pairs| == RouteLength(s, d, r)
  {
    if r == Sorted {
      assert |multiset(pairs)| == |multiset(DirectPlan(s, d))|;
    }
  }

  /** The commands by which the block commands for d fall short if channel 64 is missed. */
  ghost function Missed(s: Channels72, d: Channels72): nat {
    if MissesChannel64(s, d) then 1 else 0
  }

  lemma HeardDistance(a: Channels72, s: Channels72, d: Channels72)
    requires forall i | NARROW <= i < 72 :: a[i] == s[i]
    ensures DiffCount(a, d, 0, 5) == DiffCount(a, Heard(s, d), 0, 5) + Missed(s, d)
  {
    if MissesChannel64(s, d) {
      var h := Heard(s, d);
      DiffCountLocal(a, a, d, h, 0, 4);
      DiffCountSplit(a, d, 0, 4, 5);
      DiffCountSplit(a, h, 0, 4, 5);
      assert a[NARROW] != d[NARROW] && Differs(a, d, 4) && !Differs(a, h, 4);
      assert DiffCount(a, d, 4, 5) == 1 && DiffCount(a, h, 4, 5) == 0;
    }
  }

  /** The lower bound in terms of the lengths of the routes. */
  lemma BoundByRoutes(s: Channels72, d: Channels72, off: bool, banks: bool)
    ensures var direct, on := |DirectPlan(s, d)| + Missed(s, d), 1 + |UniformTail(true, d)|;
            var m := if off then Min(Min(direct, on), 1 + |UniformTail(false, d)|) else Min(direct, on);
            Bound(ReachOf(Ch72, off, banks), s, d) == if banks then Min(m, 1 + |BanksTail(s, d)| + Missed(s, d)) else m
  {
    BlockPlanLength(s, Heard(s, d), 5);
    HeardDistance(s, s, d);
    DiffCountSplit(s, d, 0, 4, 5);
    BlockPlanLength(Uniform(true, d), d, 4);
    BlockPlanLength(Uniform(false, d), d, 4);
    BanksTailLength(s, d);
  }

  lemma BanksTailLength(s: Channels72, d: Channels72)
    ensures |BanksTail(s, d)| + Missed(s, d) == DiffCount(FullBanks(d), d, 0, 4) + DiffCount(s, d, 4, 5)
  {
    BlockPlanLength(BankBase(s, d), Heard(s, d), 5);
    HeardDistance(BankBase(s, d), s, d);
    DiffCountSplit(BankBase(s, d), d, 0, 4, 5);
    TailDistance(s, BankBase(s, d), d, 4, 5);
    forall k | 0 <= k < 4
      ensures Differs(BankBase(s, d), d, k) <==> Differs(FullBanks(d), d, k)
    {
      assert forall i | 0 <= i < 72 && i / BLOCK == k :: BankBase(s, d)[i] == FullBanks(d)[i];
    }
    DiffCountLocal(BankBase(s, d), FullBanks(d), d, d, 0, 4);
  }

  /** Without a full sub-band the sub-band command only disables channels. */
  lemma NoFullBank(s: Channels72, d: Channels72)
    requires !SomeBankFull(d)
    ensures |BanksTail(s, d)| + Missed(s, d) >= |UniformTail(false, d)|
  {
    forall i | 0 <= i < NARROW
      ensures !FullBanks(d)[i]
    {
      assert !FullBank(d, i / 8);
    }
    UniformDistance(FullBanks(d), false, d, 4);
    BanksTailLength(s, d);
    BlockPlanLength(Uniform(false, d), d, 4);
  }

  lemma SomethingToDo(s: Channels72, d: Channels72)
    requires s != d
    ensures |DirectPlan(s, d)| + Missed(s, d) >= 1
  {
    DiffCountZero(s, d, 5);
    HeardDistance(s, s, d);
    BlockPlanLength(s, Heard(s, d), 5);
  }

  lemma MixedNarrow(d: Channels72, v: bool)
    requires !AllAre(d, v, NARROW)
    ensures |UniformTail(v, d)| >= 1
  {
    var i :| 0 <= i < NARROW && d[i] != v;
    assert Differs(Uniform(v, d), d, i / BLOCK);
    DiffCountAtLeast(Uniform(v, d), d, i / BLOCK, 0, 4);
    BlockPlanLength(Uniform(v, d), d, 4);
  }

  lemma AtomicLength(s: Channels72, d: Channels72, banks: bool)
    requires s != d && Arrives(ChosenRoute(s, d, banks, true), s, d)
    ensures RouteLength(s, d, ChosenRoute(s, d, banks, true)) <= Bound(ReachOf(Ch72, true, banks), s, d)
  {
    BoundByRoutes(s, d, true, banks);
    SomethingToDo(s, d);
    if !AllAre(d, true, NARROW) && !AllAre(d, false, NARROW) {
      MixedNarrow(d, true);
      MixedNarrow(d, false);
    }
    if !SomeBankFull(d) {
      NoFullBank(s, d);
    }
  }

  /** For a device that takes the commands as a whole, whenever the generated sequence leads to
      the desired state, no sequence of commands that the device supports does so faster. */
  lemma AtomicPlanShortest(s: Channels72, d: Channels72, banks: bool, pairs: seq<ChMaskCntlPair>)
    requires Follows(ChosenRoute(s, d, banks, true), s, d, pairs)
    requires s != d && Reaches(Ch72, s, pairs, d)
    ensures Shortest(Ch72, true, banks, s, d, |pairs|)
  {
    hide Reaches, Bound, BlockPlan, Shortest;
    PlanMeaning(s, d, banks, true, pairs);
    AtomicLength(s, d, banks);
    FollowsLength(ChosenRoute(s, d, banks, true), s, d, pairs);
    NoLongerThanBound(Ch72, true, banks, s, d, |pairs|);
  }

  // The choice between the routes, in terms of the states alone.

  /** What it costs to send the blocks that differ. */
  ghost function DirectCost(s: Channels72, d: Channels72): nat {
    DiffCount(s, Heard(s, d), 0, 5)
  }

  /** What it costs to enable or disable the 125 kHz channels first. */
  ghost function WideCost(v: bool, d: Channels72): nat {
    1 + DiffCount(Uniform(v, d), d, 0, 4)
  }

  /** What it costs to set the 125 kHz channels by sub-band first. */
  ghost function BanksCost(s: Channels72, d: Channels72): nat {
    1 + DiffCount(FullBanks(d), d, 0, 4) + DiffCount(s, Heard(s, d), 4, 5)
  }

  ghost predicate NarrowUniform(d: Channels72) {
    AllAre(d, true, NARROW) || AllAre(d, false, NARROW)
  }

  /** Disabling all channels first is no option for a device that takes the commands one by one, and then
      enabling all of them first is only an option if it is cheaper than that. */
  ghost function GenericCost(s: Channels72, d: Channels72, atomic: bool): nat {
    if s == d || NarrowUniform(d) then 1
    else if atomic || WideCost(true, d) < WideCost(false, d) then Min(DirectCost(s, d), Min(WideCost(true, d), WideCost(false, d)))
    else DirectCost(s, d)
  }

  ghost function ChosenCost(s: Channels72, d: Channels72, banks: bool, atomic: bool): nat {
    var n := GenericCost(s, d, atomic);
    if banks && SomeBankFull(d) then Min(n, BanksCost(s, d)) else n
  }

  /** Enabling or disabling all 125 kHz channels first is cheapest, and an option. */
  ghost predicate WideCheapest(s: Channels72, d: Channels72, banks: bool, atomic: bool) {
    var wide := Min(WideCost(true, d), WideCost(false, d));
    && (atomic || WideCost(true, d) < WideCost(false, d))
    && wide < DirectCost(s, d)
    && (banks && SomeBankFull(d) ==> wide <= BanksCost(s, d))
  }

  ghost predicate DirectCheapest(s: Channels72, d: Channels72, banks: bool) {
    && DirectCost(s, d) <= WideCost(true, d) && DirectCost(s, d) <= WideCost(false, d)
    && (banks && SomeBankFull(d) ==> DirectCost(s, d) <= BanksCost(s, d))
  }

  lemma CostsAreLengths(s: Channels72, d: Channels72)
    ensures |DirectPlan(s, d)| == DirectCost(s, d)
    ensures 1 + |UniformTail(true, d)| == WideCost(true, d) && 1 + |UniformTail(false, d)| == WideCost(false, d)
    ensures 1 + |BanksTail(s, d)| == BanksCost(s, d)
  {
    BlockPlanLength(s, Heard(s, d), 5);
    BlockPlanLength(Uniform(true, d), d, 4);
    BlockPlanLength(Uniform(false, d), d, 4);
    BanksTailLength(s, d);
    TailMissed(s, d);
  }

  lemma TailMissed(s: Channels72, d: Channels72)
    ensures DiffCount(s, d, 4, 5) == DiffCount(s, Heard(s, d), 4, 5) + Missed(s, d)
  {
    HeardDistance(s, s, d);
    DiffCountSplit(s, d, 0, 4, 5);
    DiffCountSplit(s, Heard(s, d), 0, 4, 5);
    DiffCountLocal(s, s, d, Heard(s, d), 0, 4);
  }

  /** The number of commands is the least of the costs of the options. */
  lemma RouteCost(s: Channels72, d: Channels72, banks: bool, atomic: bool)
    ensures RouteLength(s, d, GenericRoute(s, d, atomic)) == GenericCost(s, d, atomic)
    ensures RouteLength(s, d, ChosenRoute(s, d, banks, atomic)) == ChosenCost(s, d, banks, atomic)
  {
    hide DirectPlan, UniformTail, BanksTail, SomeBankFull, DirectCost, BanksCost;
    CostsAreLengths(s, d);
    if !NarrowUniform(d) {
      MixedNarrow(d, true);
      MixedNarrow(d, false);
    }
  }

  lemma UnchangedCost(s: Channels72, d: Channels72, banks: bool, atomic: bool)
    ensures s == d ==> ChosenCost(s, d, banks, atomic) == 1
  {
  }

  /** The desired state is attained, unless channel 64 is missed by block commands. */
  ghost predicate Attains(s: Channels72, d: Channels72, banks: bool, atomic: bool) {
    !(MissesChannel64(s, d) && !NarrowUniform(d) && !WideCheapest(s, d, banks, atomic))
  }

  /** Which routes lead to the desired state. */
  lemma ArrivesExactly(s: Channels72, d: Channels72, banks: bool, atomic: bool)
    ensures Arrives(ChosenRoute(s, d, banks, atomic), s, d) <==> Attains(s, d, banks, atomic)
  {
    hide DirectPlan, UniformTail, BanksTail, SomeBankFull, DirectCost, BanksCost;
    CostsAreLengths(s, d);
    if !NarrowUniform(d) {
      MixedNarrow(d, true);
      MixedNarrow(d, false);
    }
  }

  /** Which route is taken: setting by sub-band first only if that is cheaper than all else, and otherwise the
      block commands unless a wide command saves one. */
  lemma RouteExactly(s: Channels72, d: Channels72, banks: bool, atomic: bool)
    ensures var r := ChosenRoute(s, d, banks, atomic);
            if s == d then r == Unchanged
            else if AllAre(d, false, NARROW) then r == Off
            else if AllAre(d, true, NARROW) then r == On
            else if banks && SomeBankFull(d) && BanksCost(s, d) < GenericCost(s, d, atomic) then r == BanksFirst
            else if GenericCost(s, d, atomic) < DirectCost(s, d) then r == if WideCost(true, d) < WideCost(false, d) then OnFirst else OffFirst
            else r == if DirectCheapest(s, d, banks) then Direct else Sorted
  {
    hide DirectPlan, UniformTail, BanksTail, SomeBankFull, DirectCost, BanksCost;
    CostsAreLengths(s, d);
    if !NarrowUniform(d) {
      MixedNarrow(d, true);
      MixedNarrow(d, false);
    }
  }

  /** Enabling all channels first is cheaper than the block commands, but is passed over because disabling
      all channels first would be as cheap. */
  ghost predicate PassesOverOnFirst(s: Channels72, d: Channels72) {
    !NarrowUniform(d) && WideCost(true, d) < DirectCost(s, d) && WideCost(false, d) <= WideCost(true, d)
  }

  lemma StepwiseLength(s: Channels72, d: Channels72)
    requires s != d && Arrives(ChosenRoute(s, d, false, false), s, d) && !PassesOverOnFirst(s, d)
    ensures RouteLength(s, d, ChosenRoute(s, d, false, false)) <= Bound(ReachOf(Ch72, false, false), s, d)
  {
    BoundByRoutes(s, d, false, false);
    CostsAreLengths(s, d);
    SomethingToDo(s, d);
    if !AllAre(d, true, NARROW) {
      MixedNarrow(d, true);
    }
  }

  /** For a device that takes the commands one by one and does not support the sub-band command:
      whenever the generated sequence leads to the desired state it is shortest among those without
      ChMaskCntl 7, except that the planner never considers ChMaskCntl 6 once ChMaskCntl 7 would have
      been as short. */
  lemma StepwisePlanShortest(s: Channels72, d: Channels72, pairs: seq<ChMaskCntlPair>)
    requires Follows(ChosenRoute(s, d, false, false), s, d, pairs)
    requires s != d && Reaches(Ch72, s, pairs, d)
    ensures Shortest(Ch72, false, false, s, d, |pairs|) <==> !PassesOverOnFirst(s, d)
  {
    hide Run, BlockPlan, Bound, MissesChannel64, Follows, ChosenRoute, DirectPlan;
    PlanMeaning(s, d, false, false, pairs);
    FollowsLength(ChosenRoute(s, d, false, false), s, d, pairs);
    RouteCost(s, d, false, false);
    CostsAreLengths(s, d);
    if PassesOverOnFirst(s, d) {
      var better := [WidebandPair(6, d)] + UniformTail(true, d);
      UniformFirstMeaning(s, d, true);
      BlockPlanCommands(Uniform(true, d), d, 4);
      assert Permitted(Ch72, false, false, better) && |better| < |pairs|;
    } else {
      StepwiseLength(s, d);
      NoLongerThanBound(Ch72, false, false, s, d, |pairs|);
    }
  }

  // Never muted.

  ghost predicate SomeOn(s: Channels) {
    exists i | 0 <= i < |s| :: s[i]
  }

  /** A device that carries out the commands one by one never has all channels disabled. */
  ghost predicate NeverMuted(s: Channels72, pairs: seq<ChMaskCntlPair>) {
    forall j | 1 <= j <= |pairs| :: Run(Ch72, s, pairs[..j]).Some? && SomeOn(Run(Ch72, s, pairs[..j]).value)
  }

  /** Below block b only s has enabled channels, from block b on only d has. */
  ghost predicate HandsOver(s: Channels72, d: Channels72, b: nat) {
    && SomeOn(s)
    && AllAre(d, false, BLOCK * b)
    && (forall i | BLOCK * b <= i < 72 :: !s[i])
  }

  ghost predicate HandsOverNarrow(s: Channels72, d: Channels72) {
    exists b: nat | 1 <= b <= 3 :: HandsOver(s, d, b)
  }

  /** The prefixes of a block plan are the block plans over fewer blocks. */
  lemma {:induction false} BlockPlanPrefix(a: Channels, d: Channels, n: nat, j: nat) returns (b: nat)
    requires j <= |BlockPlan(a, d, n)|
    ensures b <= n && BlockPlan(a, d, n)[..j] == BlockPlan(a, d, b)
    ensures 1 <= j ==> 1 <= b && Differs(a, d, b - 1)
  {
    if j == |BlockPlan(a, d, n)| && (n == 0 || Differs(a, d, n - 1)) {
      b := n;
    } else if j == 0 {
      b := 0;
    } else {
      b := BlockPlanPrefix(a, d, n - 1, j);
    }
  }

  lemma {:induction false} BlockPlanIsPrefix(a: Channels, d: Channels, b: nat, n: nat)
    requires b <= n
    ensures BlockPlan(a, d, b) <= BlockPlan(a, d, n)
  {
    if b < n {
      BlockPlanIsPrefix(a, d, b, n - 1);
    }
  }

  /** Part way through a block plan the device has d below some block and t from there on. */
  lemma PartWay(t: Channels72, a: Channels, d: Channels72, b: nat)
    requires b <= 5 && (72 <= |a| || BLOCK * b <= |a|)
    requires forall i | 0 <= i < 72 && i < BLOCK * b :: t[i] == a[i]
    ensures Run(Ch72, t, BlockPlan(a, d, b)) == Some(RunWrites(t, BlockPlan(a, d, b)))
    ensures forall i | 0 <= i < 72 :: RunWrites(t, BlockPlan(a, d, b))[i] == if i < BLOCK * b then d[i] else t[i]
  {
    BlockPlanCommands(a, d, b);
    RunBlocks(Ch72, t, BlockPlan(a, d, b));
    BlockPlanMeaning(t, a, d, b);
  }

  lemma DirectMutes(s: Channels72, d: Channels72)
    requires exists i | 0 <= i < NARROW :: d[i]
    ensures NeverMuted(s, DirectPlan(s, d)) <==> !HandsOverNarrow(s, d)
  {
    if b: nat :| 1 <= b <= 3 && HandsOver(s, d, b) {
      DirectMutedAt(s, d, b);
    } else {
      forall j | 1 <= j <= |DirectPlan(s, d)|
        ensures Run(Ch72, s, DirectPlan(s, d)[..j]).Some? && SomeOn(Run(Ch72, s, DirectPlan(s, d)[..j]).value)
      {
        DirectPrefixOn(s, d, j);
      }
    }
  }

  lemma DirectPrefixOn(s: Channels72, d: Channels72, j: nat)
    requires 1 <= j <= |DirectPlan(s, d)| && !HandsOverNarrow(s, d)
    requires exists i | 0 <= i < NARROW :: d[i]
    ensures Run(Ch72, s, DirectPlan(s, d)[..j]).Some? && SomeOn(Run(Ch72, s, DirectPlan(s, d)[..j]).value)
  {
    var h := Heard(s, d);
    var b := BlockPlanPrefix(s, h, 5, j);
    PartWay(s, s, h, b);
    var t := RunWrites(s, BlockPlan(s, h, b));
    if !SomeOn(t) {
      assert forall i | 0 <= i < 72 :: !t[i];
      MutedHandsOver(s, d, b, t);
    }
  }

  lemma MutedHandsOver(s: Channels72, d: Channels72, b: nat, t: Channels72)
    requires 1 <= b <= 5 && Differs(s, Heard(s, d), b - 1)
    requires forall i | 0 <= i < 72 :: t[i] == if i < BLOCK * b then Heard(s, d)[i] else s[i]
    requires forall i | 0 <= i < 72 :: !t[i]
    requires exists i | 0 <= i < NARROW :: d[i]
    ensures HandsOverNarrow(s, d)
  {
    var i :| 0 <= i < NARROW && d[i];
    assert !t[i] && b <= 3;
    var x :| 0 <= x < 72 && x / BLOCK == b - 1 && s[x] != Heard(s, d)[x];
    assert !t[x] && s[x];
    assert AllAre(d, false, BLOCK * b) by {
      forall y | 0 <= y < 72 && y < BLOCK * b
        ensures !d[y]
      {
        assert !t[y] && Heard(s, d)[y] == d[y];
      }
    }
    forall y | BLOCK * b <= y < 72
      ensures !s[y]
    {
      assert !t[y];
    }
    assert HandsOver(s, d, b);
  }

  lemma HandOverStarts(s: Channels72, d: Channels72, b: nat)
    requires 1 <= b <= 3 && HandsOver(s, d, b)
    ensures BlockPlan(s, Heard(s, d), b) != []
  {
    var i :| 0 <= i < 72 && s[i];
    assert i < BLOCK * b && !d[i] && Heard(s, d)[i] == d[i];
    assert Differs(s, Heard(s, d), i / BLOCK);
    DiffCountAtLeast(s, Heard(s, d), i / BLOCK, 0, b);
    BlockPlanLength(s, Heard(s, d), b);
  }

  lemma DirectMutedAt(s: Channels72, d: Channels72, b: nat)
    requires 1 <= b <= 3 && HandsOver(s, d, b)
    ensures !NeverMuted(s, DirectPlan(s, d))
  {
    var part := BlockPlan(s, Heard(s, d), b);
    HandOverStarts(s, d, b);
    BlockPlanIsPrefix(s, Heard(s, d), b, 5);
    assert DirectPlan(s, d)[..|part|] == part;
    PartWay(s, s, Heard(s, d), b);
    assert !SomeOn(RunWrites(s, part));
  }

  /** After a wide command the device keeps an enabled channel if some channel is enabled both
      by the command and in the end. */
  lemma WideFirstNeverMutes(s: Channels72, c: ChMaskCntlPair, t: Channels72, a: Channels, d: Channels72, n: nat, x: nat)
    requires n <= 5 && 72 <= |a| && Step(Ch72, s, c) == Some(t)
    requires forall i | 0 <= i < 72 && i < BLOCK * n :: t[i] == a[i]
    requires x < 72 && d[x] && t[x]
    ensures NeverMuted(s, [c] + BlockPlan(a, d, n))
  {
    var pairs := [c] + BlockPlan(a, d, n);
    forall j | 1 <= j <= |pairs|
      ensures Run(Ch72, s, pairs[..j]).Some? && SomeOn(Run(Ch72, s, pairs[..j]).value)
    {
      var b := BlockPlanPrefix(a, d, n, j - 1);
      assert pairs[..j] == [c] + BlockPlan(a, d, b);
      PartWay(t, a, d, b);
      RunCons(Ch72, s, c, BlockPlan(a, d, b));
      assert Run(Ch72, s, pairs[..j]).value[x];
    }
  }

  /** Sorting by the number of enabled channels works whatever the order among equals. */
  lemma SortedNeverMutes(s: Channels72, d: Channels72, pairs: seq<ChMaskCntlPair>)
    requires Follows(Sorted, s, d, pairs)
    requires exists i | 0 <= i < NARROW :: d[i]
    ensures NeverMuted(s, pairs)
  {
    var h := Heard(s, d);
    BlockPlanCommands(s, h, 5);
    SameCommands(DirectPlan(s, d), pairs);
    PermutationKeepsDistinct(DirectPlan(s, d), pairs);
    forall j | 1 <= j <= |pairs|
      ensures Run(Ch72, s, pairs[..j]).Some? && SomeOn(Run(Ch72, s, pairs[..j]).value)
    {
      SortedPrefixOn(s, d, pairs, j);
    }
  }

  lemma SortedPrefixOn(s: Channels72, d: Channels72, pairs: seq<ChMaskCntlPair>, j: nat)
    requires 1 <= j <= |pairs| && Descending(pairs) && DistinctCntl(pairs)
    requires forall c | c in pairs :: c.cntl < 5 && c.mask == BlockMask(Heard(s, d), c.cntl)
    requires forall k: nat | k < 5 && Differs(s, Heard(s, d), k) :: exists c | c in pairs :: c.cntl == k
    requires exists i | 0 <= i < NARROW :: d[i]
    ensures Run(Ch72, s, pairs[..j]).Some? && SomeOn(Run(Ch72, s, pairs[..j]).value)
  {
    var h, done := Heard(s, d), pairs[..j];
    assert forall c | c in done :: c in pairs;
    RunBlocks(Ch72, s, done);
    var t := RunWrites(s, done);
    TrueCountExtremes(pairs[0].mask);
    if TrueCount(pairs[0].mask) > 0 {
      var y :| 0 <= y < 16 && pairs[0].mask[y];
      assert pairs[0] in pairs;
      OnWhereWritten(s, h, done, pairs[0], y);
    } else {
      var i :| 0 <= i < NARROW && d[i];
      forall c | c in pairs
        ensures c.cntl != i / 16
      {
        MaskNotEmpty(h, i, c);
      }
      assert !Differs(s, h, i / 16);
      ChannelKept(s, done, i);
      assert t[i] == s[i] == h[i];
    }
  }

  lemma MaskNotEmpty(h: Channels72, i: nat, c: ChMaskCntlPair)
    requires i < 72 && h[i] && c.mask == BlockMask(h, c.cntl) && Enabled(c) == 0
    ensures c.cntl != i / 16
  {
    TrueCountExtremes(c.mask);
    BlockMaskBit(h, i);
  }

  lemma BlockMaskBit(h: Channels72, i: nat)
    requires i < 72
    ensures BlockMask(h, i / 16)[i % 16] == h[i]
  {
    assert BLOCK * (i / 16) + i % 16 == i;
  }

  lemma OnWhereWritten(s: Channels72, h: Channels72, done: seq<ChMaskCntlPair>, c: ChMaskCntlPair, y: nat)
    requires c in done && DistinctCntl(done) && c.cntl < 5 && c.mask == BlockMask(h, c.cntl)
    requires forall c | c in done :: c.cntl < 5
    requires y < 16 && c.mask[y]
    ensures SomeOn(RunWrites(s, done))
  {
    var i := BLOCK * c.cntl + y;
    assert i / 16 == c.cntl && i % 16 == y;
    RunBlocks(Ch72, s, done);
    ChannelWritten(s, done, i, c);
    assert RunWrites(s, done)[i];
  }

  /** The block commands are sent unsorted, and hand over from the channels of s to later channels of d. */
  ghost predicate MutesOnTheWay(s: Channels72, d: Channels72, banks: bool) {
    HandsOverNarrow(s, d) && !AllAre(d, false, NARROW) && DirectCheapest(s, d, banks)
  }

  lemma DirectNotBanks(s: Channels72, d: Channels72, banks: bool)
    requires s != d && !NarrowUniform(d) && DirectCheapest(s, d, banks)
    ensures GenericCost(s, d, false) == DirectCost(s, d) && !(banks && SomeBankFull(d) && BanksCost(s, d) < DirectCost(s, d))
  {
  }

  lemma MutesExactly(s: Channels72, d: Channels72, banks: bool)
    ensures ChosenRoute(s, d, banks, false) == Direct && HandsOverNarrow(s, d) <==> MutesOnTheWay(s, d, banks)
  {
    hide DirectCheapest, ChosenRoute;
    RouteExactly(s, d, banks, false);
    if s != d && !NarrowUniform(d) && DirectCheapest(s, d, banks) {
      DirectNotBanks(s, d, banks);
    }
    if HandsOverNarrow(s, d) {
      var b: nat :| 1 <= b <= 3 && HandsOver(s, d, b);
      assert !d[0] && !AllAre(d, true, NARROW);
      var i :| 0 <= i < 72 && s[i];
      assert i < BLOCK * b && !d[i];
    }
  }

  /** For a device that takes the commands one by one: it is never muted on the way to a state
      with enabled channels, exactly if it is not sent unsorted block commands that hand over from the
      channels of s to later channels of d. */
  lemma StepwiseNeverMuted(s: Channels72, d: Channels72, banks: bool, pairs: seq<ChMaskCntlPair>)
    requires Follows(ChosenRoute(s, d, banks, false), s, d, pairs) && SomeOn(d)
    ensures NeverMuted(s, pairs) <==> !MutesOnTheWay(s, d, banks)
  {
    hide MutesOnTheWay;
    var r := ChosenRoute(s, d, banks, false);
    RouteMeaning(r, s, d, pairs);
    MutesExactly(s, d, banks);
    match r
    case Direct => DirectMutes(s, d);
    case Sorted => SortedNeverMutes(s, d, pairs);
    case OnFirst => OnFirstNeverMutes(s, d);
    case BanksFirst => BanksFirstNeverMutes(s, d);
    case OffFirst => assert false;
    case _ => SingleNeverMutes(r, s, d, pairs);
  }

  lemma SingleNeverMutes(r: Route, s: Channels72, d: Channels72, pairs: seq<ChMaskCntlPair>)
    requires r == Unchanged || r == On || r == Off
    requires Follows(r, s, d, pairs) && Reaches(Ch72, s, pairs, d) && SomeOn(d)
    ensures NeverMuted(s, pairs)
  {
    assert pairs[..1] == pairs;
  }

  lemma OnFirstNeverMutes(s: Channels72, d: Channels72)
    requires exists i | 0 <= i < NARROW :: d[i]
    ensures NeverMuted(s, [WidebandPair(6, d)] + UniformTail(true, d))
  {
    WideStep(s, d, true);
    var i :| 0 <= i < NARROW && d[i];
    WideFirstNeverMutes(s, WidebandPair(6, d), Step(Ch72, s, WidebandPair(6, d)).value, Uniform(true, d), d, 4, i);
  }

  lemma BanksFirstNeverMutes(s: Channels72, d: Channels72)
    requires SomeBankFull(d)
    ensures NeverMuted(s, [ChMaskCntlPair(5, BankMask(d))] + BanksTail(s, d))
  {
    BanksStep(s, d);
    var k: nat :| FullBank(d, k);
    assert (8 * k) / 8 == k;
    assert forall j | 0 <= j < 72 && j / 8 == k :: j < NARROW;
    WideFirstNeverMutes(s, ChMaskCntlPair(5, BankMask(d)), BankBase(s, d), BankBase(s, d), Heard(s, d), 5, 8 * k);
  }

  // The planner.

  method Swap(pairs: array<ChMaskCntlPair>, j: nat)
    requires 1 <= j < pairs.Length
    modifies pairs
    ensures pairs[..] == old(pairs[..])[j - 1 := old(pairs[j])][j := old(pairs[j - 1])]
    ensures multiset(pairs[..]) == multiset(old(pairs[..]))
  {
    pairs[j - 1], pairs[j] := pairs[j], pairs[j - 1];
  }

  /** All but position j are in order up to position i. */
  ghost predicate DescendingBut(pairs: seq<ChMaskCntlPair>, i: nat, j: nat) {
    forall x, y | 0 <= x < y <= i && y < |pairs| && y != j :: Enabled(pairs[x]) >= Enabled(pairs[y])
  }

  /** Orders the commands by descending number of enabled channels. Which order equal
      commands end up in is not specified. */
  method SortFunc(pairs: array<ChMaskCntlPair>)
    modifies pairs
    ensures multiset(pairs[..]) == multiset(old(pairs[..]))
    ensures Descending(pairs[..])
  {
    hide Enabled;
    for i := 0 to pairs.Length
      invariant multiset(pairs[..]) == multiset(old(pairs[..]))
      invariant forall x, y | 0 <= x < y < i :: Enabled(pairs[x]) >= Enabled(pairs[y])
    {
      var j := i;
      while j > 0 && Enabled(pairs[j - 1]) < Enabled(pairs[j])
        invariant 0 <= j <= i
        invariant multiset(pairs[..]) == multiset(old(pairs[..]))
        invariant DescendingBut(pairs[..], i, j)
      {
        ghost var before := pairs[..];
        Swap(pairs, j);
        SwapKeepsOrder(before, pairs[..], i, j);
        j := j - 1;
      }
      assert forall x | 0 <= x < pairs.Length :: pairs[..][x] == pairs[x];
    }
  }

  lemma SwapKeepsOrder(a: seq<ChMaskCntlPair>, b: seq<ChMaskCntlPair>, i: nat, j: nat)
    requires 1 <= j <= i < |a| && DescendingBut(a, i, j) && Enabled(a[j - 1]) < Enabled(a[j])
    requires b == a[j - 1 := a[j]][j := a[j - 1]]
    ensures DescendingBut(b, i, j - 1)
  {
  }

  method SortedByEnabled(pairs: seq<ChMaskCntlPair>) returns (sorted: seq<ChMaskCntlPair>)
    ensures multiset(sorted) == multiset(pairs) && Descending(sorted)
  {
    var a := new ChMaskCntlPair[|pairs|](i requires 0 <= i < |pairs| => pairs[i]);
    assert a[..] == pairs;
    SortFunc(a);
    sorted := a[..];
  }

  method WidebandCommands(currentChs: Channels72, desiredChs: Channels72) returns (pairs: seq<ChMaskCntlPair>)
    ensures pairs == if WidebandSeen(currentChs, desiredChs) then [WidebandPair(4, desiredChs)] else []
  {
    for i := 65 to 72
      invariant forall x | 65 <= x < i :: currentChs[x] == desiredChs[x]
    {
      if currentChs[i] != desiredChs[i] {
        var mask := BoolsTo16BoolArray(desiredChs[64..72]);
        assert mask == BlockMask(desiredChs, 4);
        return [ChMaskCntlPair(4, mask)];
      }
    }
    return [];
  }

  /** Block commands for the 125 kHz channels and, if a change is seen, one for the 500 kHz channels. */
  lemma NarrowAndWide(a: Channels72, s: Channels72, d: Channels72, narrow: seq<ChMaskCntlPair>,
      wide: seq<ChMaskCntlPair>)
    requires narrow == BlockPlan(a[0..64], d[0..64], 4)
    requires forall i | NARROW <= i < 72 :: a[i] == s[i]
    requires wide == if WidebandSeen(s, d) then [WidebandPair(4, d)] else []
    ensures narrow + wide == BlockPlan(a, Heard(s, d), 5)
  {
    var h := Heard(s, d);
    BlockPlanLocal(a[0..64], a, d[0..64], h, 4);
    assert BlockPlan(a, h, 4) == narrow;
    if WidebandSeen(s, d) {
      var i :| 64 < i < 72 && s[i] != d[i];
      assert Differs(a, h, 4);
    } else {
      assert forall i | 64 <= i < 72 :: h[i] == s[i];
    }
    assert narrow + [] == narrow;
  }

  lemma {:induction false} BlockPlanLocal(a: Channels, a': Channels, b: Channels, b': Channels, n: nat)
    requires BLOCK * n <= |a| && BLOCK * n <= |a'| && BLOCK * n <= |b| && BLOCK * n <= |b'|
    requires forall i | 0 <= i < BLOCK * n :: a[i] == a'[i] && b[i] == b'[i]
    ensures BlockPlan(a, b, n) == BlockPlan(a', b', n)
  {
    if n != 0 {
      BlockPlanLocal(a, a', b, b', n - 1);
      assert Differs(a, b, n - 1) <==> Differs(a', b', n - 1);
      assert BlockMask(b, n - 1) == BlockMask(b', n - 1);
    }
  }

  lemma UniformTailIs(v: bool, d: Channels72)
    ensures BlockPlan(Repeat(v, 64), d[0..64], 4) == UniformTail(v, d)
  {
    BlockPlanLocal(Repeat(v, 64), Uniform(v, d), d[0..64], d, 4);
  }

  lemma EnabledNarrow(d: Channels72)
    ensures TrueCount(d[0..64]) == 0 <==> AllAre(d, false, NARROW)
    ensures TrueCount(d[0..64]) == 64 <==> AllAre(d, true, NARROW)
  {
    TrueCountExtremes(d[0..64]);
    assert forall i | 0 <= i < 64 :: d[0..64][i] == d[i];
  }

  method CommandsByRoute(currentChs: Channels72, desiredChs: Channels72, atomic: bool) returns (r: seq<ChMaskCntlPair>)
    ensures Follows(GenericRoute(currentChs, desiredChs, atomic), currentChs, desiredChs, r)
  {
    var equal := EqualChMasks(currentChs, desiredChs);
    if equal {
      var mask := BoolsTo16BoolArray(desiredChs[0..16]);
      assert mask == BlockMask(desiredChs, 0);
      return [ChMaskCntlPair(0, mask)];
    }
    var wideMask := BoolsTo16BoolArray(desiredChs[64..72]);
    assert wideMask == BlockMask(desiredChs, 4);
    var on125 := CountTrue(desiredChs[0..64]);
    EnabledNarrow(desiredChs);
    if on125 == 0 {
      return [ChMaskCntlPair(7, wideMask)];
    } else if on125 == 64 {
      return [ChMaskCntlPair(6, wideMask)];
    }
    var narrow := BlockCommandsFor(currentChs[0..64], desiredChs[0..64]);
    var wide := WidebandCommands(currentChs, desiredChs);
    var pairs := narrow + wide;
    NarrowAndWide(currentChs, currentChs, desiredChs, narrow, wide);
    if |pairs| <= 2 {
      return pairs;
    }
    var cntl6Pairs := BlockCommandsFor(Repeat(true, 64), desiredChs[0..64]);
    var cntl7Pairs := BlockCommandsFor(Repeat(false, 64), desiredChs[0..64]);
    UniformTailIs(true, desiredChs);
    UniformTailIs(false, desiredChs);
    if |pairs| <= 1 + |cntl6Pairs| && |pairs| <= 1 + |cntl7Pairs| {
      return pairs;
    } else if |cntl6Pairs| < |cntl7Pairs| {
      return [ChMaskCntlPair(6, wideMask)] + cntl6Pairs;
    } else if !atomic {
      var sorted := SortedByEnabled(pairs);
      return sorted;
    } else {
      return [ChMaskCntlPair(7, wideMask)] + cntl7Pairs;
    }
  }

  method GenerateChMask72Generic(currentChs: Channels, desiredChs: Channels, atomic: bool)
    returns (r: Result<seq<ChMaskCntlPair>, MaskError>)
    ensures |currentChs| != 72 || |desiredChs| != 72 ==> r == Failure(InvalidChannelCount)
    ensures |currentChs| == 72 && |desiredChs| == 72 ==>
              && r.Success?
              && Follows(GenericRoute(currentChs, desiredChs, atomic), currentChs, desiredChs, r.value)
              && |r.value| == GenericCost(currentChs, desiredChs, atomic)
  {
    hide GenericCost, GenericRoute, Follows;
    if |currentChs| != 72 || |desiredChs| != 72 {
      return Failure(InvalidChannelCount);
    }
    var pairs := CommandsByRoute(currentChs, desiredChs, atomic);
    RouteCost(currentChs, desiredChs, false, atomic);
    FollowsLength(GenericRoute(currentChs, desiredChs, atomic), currentChs, desiredChs, pairs);
    return Success(pairs);
  }

  method FullSubBands(desiredChs: Channels72) returns (fsbs: seq<bool>)
    ensures |fsbs| == 8 && forall i | 0 <= i < 8 :: fsbs[i] <==> FullBank(desiredChs, i)
  {
    var a := new bool[8](_ => false);
    for i := 0 to 8
      invariant forall x | 0 <= x < 8 :: a[x] <==> x < i && FullBank(desiredChs, x)
    {
      var bank := desiredChs[8 * i..8 * i + 8];
      var n := CountTrue(bank);
      TrueCountExtremes(bank);
      assert forall j | 0 <= j < 8 :: bank[j] == desiredChs[8 * i + j] && (8 * i + j) / 8 == i;
      assert n == 8 <==> FullBank(desiredChs, i) by {
        if n == 8 {
          assert forall j | 0 <= j < NARROW && j / 8 == i :: desiredChs[j] == bank[j - 8 * i];
        }
      }
      if n == 8 {
        a[i] := true;
      }
    }
    fsbs := a[..];
  }

  lemma FullBanksCount(d: Channels72, fsbs: seq<bool>)
    requires |fsbs| == 8 && forall i | 0 <= i < 8 :: fsbs[i] <==> FullBank(d, i)
    ensures TrueCount(fsbs) == 0 <==> !SomeBankFull(d)
    ensures TrueCount(fsbs) == 8 ==> AllAre(d, true, NARROW)
    ensures Pad16(fsbs) == BankMask(d)
  {
    TrueCountExtremes(fsbs);
    if TrueCount(fsbs) == 8 {
      forall i | 0 <= i < NARROW
        ensures d[i]
      {
        assert FullBank(d, i / 8);
      }
    }
  }

  lemma BanksTailIs(s: Channels72, d: Channels72, fsbs: seq<bool>, narrow: seq<ChMaskCntlPair>,
      wide: seq<ChMaskCntlPair>)
    requires |fsbs| == 8 && forall i | 0 <= i < 8 :: fsbs[i] <==> FullBank(d, i)
    requires narrow == BlockPlan(SpreadBanks(Pad16(fsbs)), d[0..64], 4)
    requires wide == if WidebandSeen(s, d) then [WidebandPair(4, d)] else []
    ensures narrow + wide == BanksTail(s, d)
  {
    var base := BankBase(s, d);
    FullBanksCount(d, fsbs);
    BanksStep(s, d);
    assert base[0..64] == SpreadBanks(BankMask(d)) by {
      var t := Step(Ch72, s, ChMaskCntlPair(5, BankMask(d))).value;
      assert forall i | 0 <= i < 64 :: t[i] == SpreadBanks(BankMask(d))[i];
    }
    NarrowAndWide(base, s, d, narrow, wide);
  }

  /** The planner for a channel plan that may or may not support the sub-band command. */
  method GenerateChMask72(currentChs: Channels, desiredChs: Channels, supportChMaskCntl5: bool, atomic: bool)
    returns (r: Result<seq<ChMaskCntlPair>, MaskError>)
    ensures |currentChs| != 72 || |desiredChs| != 72 ==> r == Failure(InvalidChannelCount)
    ensures |currentChs| == 72 && |desiredChs| == 72 ==>
              && r.Success?
              && Follows(ChosenRoute(currentChs, desiredChs, supportChMaskCntl5, atomic), currentChs, desiredChs, r.value)
    ensures |currentChs| == 72 && |desiredChs| == 72 ==>
              && |r.value| == ChosenCost(currentChs, desiredChs, supportChMaskCntl5, atomic)
              && (currentChs == desiredChs ==> |r.value| == 1)
              && (Reaches(Ch72, currentChs, r.value, desiredChs) <==> Attains(currentChs, desiredChs, supportChMaskCntl5, atomic))
    ensures |currentChs| == 72 && |desiredChs| == 72 && currentChs != desiredChs && Attains(currentChs, desiredChs, supportChMaskCntl5, atomic) ==>
              && (atomic ==> Shortest(Ch72, true, supportChMaskCntl5, currentChs, desiredChs, |r.value|))
              && (!atomic && !supportChMaskCntl5 ==>
                    (Shortest(Ch72, false, false, currentChs, desiredChs, |r.value|) <==> !PassesOverOnFirst(currentChs, desiredChs)))
    ensures |currentChs| == 72 && |desiredChs| == 72 && !atomic && SomeOn(desiredChs) ==>
              (NeverMuted(currentChs, r.value) <==> !MutesOnTheWay(currentChs, desiredChs, supportChMaskCntl5))
  {
    hide Run, BlockPlan, TrueCount, Heard, MissesChannel64, Attains, ChosenCost, GenericCost, MutesOnTheWay, PassesOverOnFirst;
    var pairs;
    r := GenerateChMask72Generic(currentChs, desiredChs, atomic);
    if r.Failure? {
      return;
    }
    pairs := r.value;
    var n := |pairs|;
    FollowsLength(GenericRoute(currentChs, desiredChs, atomic), currentChs, desiredChs, pairs);
    if supportChMaskCntl5 && n > 1 {
      var fsbs := FullSubBands(desiredChs);
      var full := CountTrue(fsbs);
      FullBanksCount(desiredChs, fsbs);
      if full != 0 && full != 8 {
        var mask := BoolsTo16BoolArray(fsbs);
        var narrow := BlockCommandsFor(SpreadBanks(mask), desiredChs[0..64]);
        var wide := WidebandCommands(currentChs, desiredChs);
        BanksTailIs(currentChs, desiredChs, fsbs, narrow, wide);
        if 1 + |narrow + wide| < n {
          pairs := [ChMaskCntlPair(5, mask)] + (narrow + wide);
        }
      }
    }
    assert Follows(ChosenRoute(currentChs, desiredChs, supportChMaskCntl5, atomic), currentChs, desiredChs, pairs);
    PlanMeaning(currentChs, desiredChs, supportChMaskCntl5, atomic, pairs);
    RouteCost(currentChs, desiredChs, supportChMaskCntl5, atomic);
    FollowsLength(ChosenRoute(currentChs, desiredChs, supportChMaskCntl5, atomic), currentChs, desiredChs, pairs);
    UnchangedCost(currentChs, desiredChs, supportChMaskCntl5, atomic);
    if currentChs != desiredChs && Attains(currentChs, desiredChs, supportChMaskCntl5, atomic) {
      if atomic {
        AtomicPlanShortest(currentChs, desiredChs, supportChMaskCntl5, pairs);
      } else if !supportChMaskCntl5 {
        StepwisePlanShortest(currentChs, desiredChs, pairs);
      }
    }
    if !atomic && SomeOn(desiredChs) {
      StepwiseNeverMuted(currentChs, desiredChs, supportChMaskCntl5, pairs);
    }
    r := Success(pairs);
  }
}
