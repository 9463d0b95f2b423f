/** Channel masks and their meaning: what one (ChMaskCntl, ChMask) command of a
    LinkADRReq does to the enabled channels of a device, for each channel plan. */
module ChannelMask {
  import opened Wrappers

  /** channels[i] says whether uplink channel i is enabled. */
  type Channels = seq<bool>

  type Byte = n: nat | n < 0x100

  type ChMask = m: seq<bool> | |m| == 16 witness Repeat(false, 16)

  datatype ChMaskCntlPair = ChMaskCntlPair(cntl: Byte, mask: ChMask)

  datatype MaskError = UnsupportedChMaskCntl(cntl: Byte) | InvalidChannelCount

  datatype Plan = Ch16 | Ch48 | Ch64 | Ch72 | Ch96 {
    function Channels(): nat {
      match this
      case Ch16 => 16
      case Ch48 => 48
      case Ch64 => 64
      case Ch72 => 72
      case Ch96 => 96
    }

    /** The number of 16-channel blocks, the last of which may be partial. */
    function Blocks(): nat {
      (Channels() + 15) / 16
    }
  }

  function Repeat(v: bool, n: nat): (r: seq<bool>)
  {
    seq(n, _ => v)
  }

  function Pad16(vs: seq<bool>): (r: ChMask)
  {
    seq(16, j => 0 <= j < |vs| && vs[j])
  }

  /** The eight leading bits of a mask, each spread over a sub-band of eight channels. */
  function SpreadBanks(mask: ChMask): (r: seq<bool>)
  {
    seq(64, i requires 0 <= i < 64 => mask[i / 8])
  }

  function BitAt(mask: seq<bool>, offset: nat, i: nat): (b: bool)
    requires offset <= i < offset + |mask|
  {
    mask[i - offset]
  }

  function ChannelMap(offset: nat, mask: seq<bool>): (m: map<nat, bool>)
  {
    map i: nat | offset <= i < offset + |mask| :: BitAt(mask, offset, i)
  }

  /** The source numbers channels with a uint8 and panics when a mask does not fit. */
  method ParseChMask(offset: Byte, mask: seq<bool>) returns (m: map<nat, bool>)
    requires offset + |mask| <= 0x100
    ensures m == ChannelMap(offset, mask)
  {
    m := map[];
    for i := 0 to |mask|
      invariant m == ChannelMap(offset, mask[..i])
    {
      m := m[offset + i := mask[i]];
    }
    assert mask[..|mask|] == mask;
  }

  // The decoders.

  function ParseChMask16(mask: ChMask, cntl: Byte): Result<map<nat, bool>, MaskError> {
    if cntl == 0 then Success(ChannelMap(0, mask))
    else if cntl == 6 then Success(ChannelMap(0, Repeat(true, 16)))
    else Failure(UnsupportedChMaskCntl(cntl))
  }

  function ParseChMask48(mask: ChMask, cntl: Byte): Result<map<nat, bool>, MaskError> {
    if cntl <= 2 then Success(ChannelMap(16 * cntl, mask))
    else if cntl == 3 then Success(ChannelMap(0, Repeat(true, 56)))
    else if cntl == 4 then Success(ChannelMap(0, Repeat(false, 56)))
    else Failure(UnsupportedChMaskCntl(cntl))
  }

  function ParseChMask64(mask: ChMask, cntl: Byte): Result<map<nat, bool>, MaskError> {
    if cntl <= 3 then Success(ChannelMap(16 * cntl, mask))
    else if cntl == 6 then Success(ChannelMap(0, Repeat(true, 72)))
    else if cntl == 7 then Success(ChannelMap(0, Repeat(false, 72)))
    else Failure(UnsupportedChMaskCntl(cntl))
  }

  function ParseChMask72(mask: ChMask, cntl: Byte): Result<map<nat, bool>, MaskError> {
    if cntl <= 3 then Success(ChannelMap(16 * cntl, mask))
    else if cntl == 4 then Success(ChannelMap(64, mask[..8]))
    else if cntl == 5 then Success(ChannelMap(0, SpreadBanks(mask)))
    else if cntl == 6 then Success(ChannelMap(0, Repeat(true, 64) + mask[..8]))
    else if cntl == 7 then Success(ChannelMap(0, Repeat(false, 64) + mask[..8]))
    else Failure(UnsupportedChMaskCntl(cntl))
  }

  function ParseChMask96(mask: ChMask, cntl: Byte): Result<map<nat, bool>, MaskError> {
    if cntl <= 5 then Success(ChannelMap(16 * cntl, mask))
    else if cntl == 6 then Success(ChannelMap(0, Repeat(true, 96)))
    else Failure(UnsupportedChMaskCntl(cntl))
  }

  function Parse(plan: Plan, c: ChMaskCntlPair): Result<map<nat, bool>, MaskError> {
    match plan
    case Ch16 => ParseChMask16(c.mask, c.cntl)
    case Ch48 => ParseChMask48(c.mask, c.cntl)
    case Ch64 => ParseChMask64(c.mask, c.cntl)
    case Ch72 => ParseChMask72(c.mask, c.cntl)
    case Ch96 => ParseChMask96(c.mask, c.cntl)
  }

  // What a device does with commands. A key beyond the device's channels has no effect.

  function Overwrite(s: Channels, m: map<nat, bool>): (r: Channels)
    ensures |r| == |s|
  {
    seq(|s|, i requires 0 <= i < |s| => if i in m then m[i] else s[i])
  }

  function Step(plan: Plan, s: Channels, c: ChMaskCntlPair): (r: Option<Channels>)
    ensures r.Some? ==> |r.value| == |s|
  {
    match Parse(plan, c)
    case Success(m) => Some(Overwrite(s, m))
    case Failure(_) => None
  }

  /** The state after all commands in order, if the decoder accepts each of them. */
  function Run(plan: Plan, s: Channels, cmds: seq<ChMaskCntlPair>): (r: Option<Channels>)
    ensures r.Some? ==> |r.value| == |s|
  {
    if cmds == [] then
      Some(s)
    else
      match Run(plan, s, cmds[..|cmds| - 1])
      case None => None
      case Some(t) => Step(plan, t, cmds[|cmds| - 1])
  }

  lemma {:induction false} RunConcat(plan: Plan, s: Channels, a: seq<ChMaskCntlPair>, b: seq<ChMaskCntlPair>)
    ensures Run(plan, s, a + b) ==
            if Run(plan, s, a).Some? then Run(plan, Run(plan, s, a).value, b) else None
  {
    if b == [] {
      assert a + b == a;
    } else {
      RunConcat(plan, s, a, b[..|b| - 1]);
      assert (a + b)[..|a + b| - 1] == a + b[..|b| - 1];
    }
  }

  lemma RunCons(plan: Plan, s: Channels, c: ChMaskCntlPair, b: seq<ChMaskCntlPair>)
    ensures Run(plan, s, [c] + b) ==
            if Step(plan, s, c).Some? then Run(plan, Step(plan, s, c).value, b) else None
  {
    RunConcat(plan, s, [c], b);
    assert [c][..0] == [];
    assert Run(plan, s, [c]) == Step(plan, s, c);
  }

  // Block commands.

  /** The channels of block k replaced by the mask, as far as they exist. */
  function WriteBlock(s: Channels, k: nat, mask: ChMask): (r: Channels)
    ensures |r| == |s|
  {
    seq(|s|, i requires 0 <= i < |s| => if i / 16 == k then mask[i % 16] else s[i])
  }

  /** Below the number of blocks, ChMaskCntl k writes exactly the channels of block k. */
  lemma StepBlock(plan: Plan, s: Channels, c: ChMaskCntlPair)
    requires |s| == plan.Channels() && c.cntl < plan.Blocks()
    ensures Step(plan, s, c) == Some(WriteBlock(s, c.cntl, c.mask))
  {
    var r := Step(plan, s, c).value;
    var w := WriteBlock(s, c.cntl, c.mask);
    assert forall i | 0 <= i < |s| :: r[i] == w[i];
    assert r == w;
  }

  ghost predicate AllSet(s: Channels, v: bool) {
    forall i | 0 <= i < |s| :: s[i] == v
  }

  /** What the other commands do, as far as a plan has them: enable or disable all channels, and with 72
      channels all but the last eight, which take over the mask, or set each sub-band by one bit of the mask. */
  lemma StepWide(plan: Plan, s: Channels, c: ChMaskCntlPair)
    requires |s| == plan.Channels() && c.cntl >= plan.Blocks()
    ensures var r := Step(plan, s, c);
            match plan
            case Ch16 => if c.cntl == 6 then r.Some? && AllSet(r.value, true) else r.None?
            case Ch48 => if c.cntl == 3 || c.cntl == 4 then r.Some? && AllSet(r.value, c.cntl == 3) else r.None?
            case Ch64 => if c.cntl == 6 || c.cntl == 7 then r.Some? && AllSet(r.value, c.cntl == 6) else r.None?
            case Ch96 => if c.cntl == 6 then r.Some? && AllSet(r.value, true) else r.None?
            case Ch72 =>
              if c.cntl > 7 then r.None?
              else
                && r.Some?
                && forall i | 0 <= i < 72 ::
                     r.value[i] == if c.cntl == 5 then (if i < 64 then c.mask[i / 8] else s[i])
                                   else if i < 64 then c.cntl == 6 else c.mask[i - 64]
  {
  }

  ghost predicate BlockCommands(plan: Plan, cmds: seq<ChMaskCntlPair>) {
    forall c | c in cmds :: c.cntl < plan.Blocks()
  }

  ghost predicate DistinctCntl(cmds: seq<ChMaskCntlPair>) {
    forall i, j | 0 <= i < j < |cmds| :: cmds[i].cntl != cmds[j].cntl
  }

  /** What block commands leave in channel i: the bit of the last command for its block. */
  ghost function ChannelAfter(s: Channels, cmds: seq<ChMaskCntlPair>, i: nat): bool
    requires i < |s|
  {
    if cmds == [] then s[i]
    else if cmds[|cmds| - 1].cntl == i / 16 then cmds[|cmds| - 1].mask[i % 16]
    else ChannelAfter(s, cmds[..|cmds| - 1], i)
  }

  /** Block commands carried out without a decoder, on any number of channels. */
  function RunWrites(s: Channels, cmds: seq<ChMaskCntlPair>): (t: Channels)
    ensures |t| == |s|
  {
    if cmds == [] then s
    else
      var last := cmds[|cmds| - 1];
      WriteBlock(RunWrites(s, cmds[..|cmds| - 1]), last.cntl, last.mask)
  }

  lemma {:induction false} RunBlocks(plan: Plan, s: Channels, cmds: seq<ChMaskCntlPair>)
    requires |s| == plan.Channels() && BlockCommands(plan, cmds)
    ensures Run(plan, s, cmds) == Some(RunWrites(s, cmds))
    ensures forall i | 0 <= i < |s| :: RunWrites(s, cmds)[i] == ChannelAfter(s, cmds, i)
  {
    if cmds != [] {
      var init, last := cmds[..|cmds| - 1], cmds[|cmds| - 1];
      RunBlocks(plan, s, init);
      StepBlock(plan, RunWrites(s, init), last);
    }
  }

  lemma {:induction false} ChannelWritten(s: Channels, cmds: seq<ChMaskCntlPair>, i: nat, c: ChMaskCntlPair)
    requires i < |s| && DistinctCntl(cmds) && c in cmds && c.cntl == i / 16
    ensures ChannelAfter(s, cmds, i) == c.mask[i % 16]
  {
    if cmds[|cmds| - 1] != c {
      assert c in cmds[..|cmds| - 1];
      ChannelWritten(s, cmds[..|cmds| - 1], i, c);
    }
  }

  lemma {:induction false} ChannelKept(s: Channels, cmds: seq<ChMaskCntlPair>, i: nat)
    requires i < |s| && forall c | c in cmds :: c.cntl != i / 16
    ensures ChannelAfter(s, cmds, i) == s[i]
  {
    if cmds != [] {
      ChannelKept(s, cmds[..|cmds| - 1], i);
    }
  }

  /** Sorting block commands that address different blocks cannot change their meaning. */
  lemma OrderIndependence(plan: Plan, s: Channels, a: seq<ChMaskCntlPair>, b: seq<ChMaskCntlPair>)
    requires |s| == plan.Channels() && BlockCommands(plan, a) && DistinctCntl(a) && multiset(a) == multiset(b)
    ensures Run(plan, s, a).Some? && Run(plan, s, a) == Run(plan, s, b)
  {
    SameCommands(a, b);
    PermutationKeepsDistinct(a, b);
    RunBlocks(plan, s, a);
    RunBlocks(plan, s, b);
    var ta, tb := Run(plan, s, a).value, Run(plan, s, b).value;
    forall i | 0 <= i < |s|
      ensures ta[i] == tb[i]
    {
      ChannelOrder(s, a, b, i);
    }
    assert ta == tb;
  }

  lemma ChannelOrder(s: Channels, a: seq<ChMaskCntlPair>, b: seq<ChMaskCntlPair>, i: nat)
    requires i < |s| && DistinctCntl(a) && DistinctCntl(b) && forall c :: c in a <==> c in b
    ensures ChannelAfter(s, a, i) == ChannelAfter(s, b, i)
  {
    if c :| c in a && c.cntl == i / 16 {
      ChannelWritten(s, a, i, c);
      ChannelWritten(s, b, i, c);
    } else {
      ChannelKept(s, a, i);
      ChannelKept(s, b, i);
    }
  }

  lemma SameCommands(a: seq<ChMaskCntlPair>, b: seq<ChMaskCntlPair>)
    requires multiset(a) == multiset(b)
    ensures forall c :: c in a <==> c in b
  {
    forall c
      ensures c in a <==> c in b
    {
      assert c in a <==> c in multiset(a);
      assert c in b <==> c in multiset(b);
    }
  }

  lemma PermutationKeepsDistinct(a: seq<ChMaskCntlPair>, b: seq<ChMaskCntlPair>)
    requires DistinctCntl(a) && multiset(a) == multiset(b)
    ensures DistinctCntl(b)
  {
    SameCommands(a, b);
    forall i, j | 0 <= i < j < |b|
      ensures b[i].cntl != b[j].cntl
    {
      assert b[i] in a && b[j] in a;
      if b[i] == b[j] {
        assert b == b[..i] + [b[i]] + b[i + 1..j] + [b[j]] + b[j + 1..];
        assert multiset(b)[b[i]] >= 2;
        MultiplicityOne(a, b[i]);
      }
    }
  }

  lemma {:induction false} MultiplicityOne(a: seq<ChMaskCntlPair>, c: ChMaskCntlPair)
    requires DistinctCntl(a)
    ensures multiset(a)[c] <= 1
  {
    if a != [] {
      var init, last := a[..|a| - 1], a[|a| - 1];
      assert a == init + [last];
      MultiplicityOne(init, c);
      assert last !in init;
    }
  }

  // Counting enabled channels.

  function TrueCount(vs: seq<bool>): (n: nat)
    ensures n <= |vs|
  {
    if vs == [] then 0 else TrueCount(vs[..|vs| - 1]) + (if vs[|vs| - 1] then 1 else 0)
  }

  method CountTrue(vs: seq<bool>) returns (n: nat)
    ensures n == TrueCount(vs)
  {
    n := 0;
    for i := 0 to |vs|
      invariant n == TrueCount(vs[..i])
    {
      assert vs[..i + 1][..i] == vs[..i];
      if vs[i] {
        n := n + 1;
      }
    }
    assert vs[..|vs|] == vs;
  }

  lemma {:induction false} TrueCountExtremes(vs: seq<bool>)
    ensures TrueCount(vs) == 0 <==> forall i | 0 <= i < |vs| :: !vs[i]
    ensures TrueCount(vs) == |vs| <==> forall i | 0 <= i < |vs| :: vs[i]
  {
    if vs != [] {
      TrueCountExtremes(vs[..|vs| - 1]);
    }
  }

  method EqualChMasks(a: seq<bool>, b: seq<bool>) returns (eq: bool)
    ensures eq <==> a == b
  {
    if |a| != |b| {
      return false;
    }
    for i := 0 to |a|
      invariant forall j | 0 <= j < i :: a[j] == b[j]
    {
      if a[i] != b[i] {
        return false;
      }
    }
    return true;
  }

  method BoolsTo16BoolArray(vs: seq<bool>) returns (r: ChMask)
    requires |vs| <= 16
    ensures r == Pad16(vs)
  {
    var ret := new bool[16](_ => false);
    for i := 0 to |vs|
      invariant forall j | 0 <= j < 16 :: ret[j] == (j < i && vs[j])
    {
      ret[i] := vs[i];
    }
    r := ret[..];
  }
}
