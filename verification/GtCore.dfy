/** Bringing the graphics chip up in numbered stages, and taking down exactly what is up. */
module GtCore {
  import opened Common

  /** What the box says it has. */
  datatype Board = EnxBoard | GtxBoard | NoBoard

  /** Build-time choices: a standalone build has none of the function blocks. */
  datatype Config = Config(standalone: bool, dmx: bool, gv: bool, pcm: bool, capture: bool)

  datatype Resource =
    | Info | RegRegion | RegMap | MemRegion | MemMap | Irq(chip: Chip) | Registers(chip: Chip)
    | Accel | Dmx | Gv | Pcm | Capture | Pig | Vbi

  const STAGES: nat := 14
  const MEMORY_STAGE: nat := 5
  const CHIP_STAGE: nat := 7

  /** Whether the stage is compiled in. */
  predicate Has(c: Config, stage: nat) {
    1 <= stage <= 7
    || (!c.standalone && (stage == 8
      || ((stage == 9 || stage == 14) && c.dmx) || (stage == 10 && c.gv)
      || (stage == 11 && c.pcm) || ((stage == 12 || stage == 13) && c.capture)))
  }

  function Resourced(stage: nat, chip: Chip): Resource
    requires 1 <= stage <= 14
  {
    match stage
    case 1 => Info case 2 => RegRegion case 3 => RegMap case 4 => MemRegion case 5 => MemMap
    case 6 => Irq(chip) case 7 => Registers(chip) case 8 => Accel case 9 => Dmx case 10 => Gv
    case 11 => Pcm case 12 => Capture case 13 => Pig case 14 => Vbi
  }

  /** What is held when all stages up to one have been passed, in the order of acquisition. */
  function Stack(c: Config, chip: Chip, stage: nat): seq<Resource>
    requires stage <= 14
  {
    if stage == 0 then []
    else Stack(c, chip, stage - 1) + if Has(c, stage) then [Resourced(stage, chip)] else []
  }

  function Reversed(s: seq<Resource>): seq<Resource> {
    if s == [] then [] else [s[|s| - 1]] + Reversed(s[..|s| - 1])
  }

  lemma {:induction false} ReversedAt(s: seq<Resource>, i: nat)
    requires i < |s|
    ensures |Reversed(s)| == |s| && Reversed(s)[i] == s[|s| - 1 - i]
  {
    if i > 0 { ReversedAt(s[..|s| - 1], i - 1); } else if |s| > 1 { ReversedAt(s[..|s| - 1], 0); }
  }

  /** The stack is the resources of the stages compiled in. */
  lemma {:induction false} StackHas(c: Config, chip: Chip, stage: nat, r: Resource)
    requires stage <= 14
    ensures r in Stack(c, chip, stage) <==>
      exists k {:trigger Has(c, k)} :: 1 <= k <= stage && Has(c, k) && r == Resourced(k, chip)
  {
    if stage > 0 { StackHas(c, chip, stage - 1, r); }
  }

  /** Each once. */
  lemma {:induction false} StackOnce(c: Config, chip: Chip, stage: nat)
    requires stage <= 14
    ensures forall i, j :: 0 <= i < j < |Stack(c, chip, stage)| ==>
      Stack(c, chip, stage)[i] != Stack(c, chip, stage)[j]
  {
    if stage > 0 {
      StackOnce(c, chip, stage - 1);
      StackHas(c, chip, stage - 1, Resourced(stage, chip));
    }
  }

  /** Everything a build acquires, in order. */
  function Everything(c: Config, chip: Chip): seq<Resource> {
    [Info, RegRegion, RegMap, MemRegion, MemMap, Irq(chip), Registers(chip)]
    + (if c.standalone then [] else [Accel])
    + (if !c.standalone && c.dmx then [Dmx] else [])
    + (if !c.standalone && c.gv then [Gv] else [])
    + (if !c.standalone && c.pcm then [Pcm] else [])
    + (if !c.standalone && c.capture then [Capture, Pig] else [])
    + (if !c.standalone && c.dmx then [Vbi] else [])
  }

  lemma StackIs(c: Config, chip: Chip)
    ensures Stack(c, chip, 14) == Everything(c, chip)
  {
    FirstEleven(c, chip);
    Passing(c, chip, 12, 13);
    Together(Stack(c, chip, 11), Capture, Pig, !c.standalone && c.capture);
    assert Stack(c, chip, 14) == Stack(c, chip, 13) + if Has(c, 14) then [Vbi] else [];
  }

  lemma FirstEleven(c: Config, chip: Chip)
    ensures Stack(c, chip, 11) ==
      [Info, RegRegion, RegMap, MemRegion, MemMap, Irq(chip), Registers(chip)]
      + (if c.standalone then [] else [Accel])
      + (if !c.standalone && c.dmx then [Dmx] else [])
      + (if !c.standalone && c.gv then [Gv] else [])
      + (if !c.standalone && c.pcm then [Pcm] else [])
  {
    FirstSeven(c, chip);
    Passing(c, chip, 8, 9);
    Passing(c, chip, 10, 11);
  }

  lemma Together(s: seq<Resource>, a: Resource, b: Resource, on: bool)
    ensures s + (if on then [a] else []) + (if on then [b] else []) == s + if on then [a, b] else []
  {
  }

  lemma Passing(c: Config, chip: Chip, j: nat, k: nat)
    requires 1 <= j < 14 && k == j + 1
    ensures Stack(c, chip, k) == Stack(c, chip, j - 1) + (if Has(c, j) then [Resourced(j, chip)] else [])
                                 + if Has(c, k) then [Resourced(k, chip)] else []
  {
    assert Stack(c, chip, j) == Stack(c, chip, j - 1) + if Has(c, j) then [Resourced(j, chip)] else [];
  }

  lemma FirstSeven(c: Config, chip: Chip)
    ensures Stack(c, chip, 7) == [Info, RegRegion, RegMap, MemRegion, MemMap, Irq(chip), Registers(chip)]
  {
    assert Stack(c, chip, 0) == [];
    Passing(c, chip, 1, 2);
    Passing(c, chip, 3, 4);
    Passing(c, chip, 5, 6);
    assert Stack(c, chip, 7) == Stack(c, chip, 6) + [Registers(chip)];
  }

  class Core {
    const config: Config
    var chip: Chip
    var initState: nat
    var held: seq<Resource>
    ghost var acquired: seq<Resource>
    ghost var released: seq<Resource>
    var watchdog: bool

    constructor (config: Config)
      ensures this.config == config && initState == 0 && held == acquired == released == [] && !watchdog
    {
      this.config, chip, initState, held, watchdog := config, Enx, 0, [], false;
      acquired, released := [], [];
    }

    /** Everything acquired is held or was released in reverse. */
    ghost predicate Balanced()
      reads this
    {
      acquired == held + Reversed(released)
    }

    method Acquire(r: Resource)
      requires released == []
      modifies `held, `acquired
      ensures held == old(held) + [r] && acquired == old(acquired) + [r]
    {
      held, acquired := held + [r], acquired + [r];
    }

    /** Only what was acquired last can be released. */
    method Release(r: Resource)
      requires held != [] && held[|held| - 1] == r
      modifies `held, `released
      ensures held == old(held)[..|old(held)| - 1] && released == old(released) + [r]
      ensures old(Balanced()) ==> Balanced()
    {
      ghost var h := held[..|held| - 1];
      assert held == h + [r];
      assert (released + [r])[..|released|] == released;
      held, released := held[..|held| - 1], released + [r];
      assert h + [r] + Reversed(old(released)) == h + ([r] + Reversed(old(released)));
    }

    /** One stage of the initialization, unless it fails. */
    method Stage(k: nat, fails: bool) returns (ok: bool)
      requires 1 <= k <= 14 && Has(config, k) && released == []
      requires held == acquired == Stack(config, chip, k - 1)
      modifies `held, `acquired, `initState
      ensures ok == !fails
      ensures ok ==> initState == k && held == acquired == Stack(config, chip, k)
      ensures !ok ==> unchanged(this)
    {
      if fails { return false; }
      Acquire(Resourced(k, chip));
      initState := k;
      ok := true;
    }

    ghost predicate Down(k: nat)
      reads this
    {
      k <= 14 && Balanced() && held == Stack(config, chip, Min(initState, k))
    }

    /** One stage of the exit. */
    method Undo(k: nat)
      requires 1 <= k && Down(k)
      modifies `held, `released
      ensures Down(k - 1)
    {
      if Has(config, k) {
        if initState >= k { Release(Resourced(k, chip)); }
      }
    }

    /** Releases whatever the stages passed have acquired. */
    method Exit()
      requires initState <= 14 && released == [] && held == acquired == Stack(config, chip, initState)
      modifies `held, `released
      ensures held == [] && acquired == Reversed(released)
    {
      assert Down(STAGES);
      ExitBlocks();
      ExitChip();
      assert acquired == [] + Reversed(released);
    }

    method ExitBlocks()
      requires Down(STAGES)
      modifies `held, `released
      ensures Down(CHIP_STAGE)
    {
      Undo(14); Undo(13); Undo(12); Undo(11); Undo(10); Undo(9); Undo(8);
    }

    method ExitChip()
      requires Down(CHIP_STAGE)
      modifies `held, `released
      ensures Down(0)
    {
      Undo(7); Undo(6); Undo(5); Undo(4); Undo(3); Undo(2); Undo(1);
    }

    /** All stages up to k are passed, and nothing has been released. */
    ghost predicate Up(k: nat, fails: nat -> bool)
      reads this
    {
      k <= 14 && initState <= k && released == [] && held == acquired == Stack(config, chip, k)
      && Stack(config, chip, initState) == Stack(config, chip, k)
      && forall j :: 1 <= j <= k ==> Passes(config, fails, j)
    }

    /** Stage k was the first to fail, and everything acquired before it is released again. */
    ghost predicate Unwound(k: nat, fails: nat -> bool)
      reads this
    {
      1 <= k <= 14 && !Passes(config, fails, k) && (forall j :: 1 <= j < k ==> Passes(config, fails, j))
      && held == [] && acquired == Stack(config, chip, k - 1) && acquired == Reversed(released)
    }

    /** A stage that is compiled in; if it fails, everything is taken down. */
    method Try(k: nat, fails: nat -> bool) returns (ok: bool)
      requires k >= 1 && Up(k - 1, fails) && k <= 14
      modifies `held, `acquired, `released, `initState
      ensures ok == Passes(config, fails, k)
      ensures if ok then Up(k, fails) else Unwound(k, fails)
    {
      if !Has(config, k) { return true; }
      ok := Stage(k, k != CHIP_STAGE && fails(k));
      if !ok { Exit(); }
    }

    method InitMemory(fails: nat -> bool) returns (outcome: Outcome)
      requires Up(0, fails)
      modifies `held, `acquired, `released, `initState
      ensures match outcome
              case Loaded => Up(MEMORY_STAGE, fails)
              case FailedAt(k) => Unwound(k, fails)
              case _ => false
    {
      var ok := Try(1, fails); if !ok { return FailedAt(1); }
      ok := Try(2, fails); if !ok { return FailedAt(2); }
      ok := Try(3, fails); if !ok { return FailedAt(3); }
      ok := Try(4, fails); if !ok { return FailedAt(4); }
      ok := Try(5, fails); if !ok { return FailedAt(5); }
      outcome := Loaded;
    }

    method InitChip(fails: nat -> bool) returns (outcome: Outcome)
      requires Up(MEMORY_STAGE, fails)
      modifies `held, `acquired, `released, `initState
      ensures match outcome
              case Loaded => Up(CHIP_STAGE, fails)
              case FailedAt(k) => Unwound(k, fails)
              case _ => false
    {
      var ok := Try(6, fails); if !ok { return FailedAt(6); }
      ok := Try(7, fails); // has no way to fail
      outcome := Loaded;
    }

    method InitBlocks(fails: nat -> bool) returns (outcome: Outcome)
      requires Up(CHIP_STAGE, fails)
      modifies `held, `acquired, `released, `initState
      ensures match outcome { case Loaded => Up(STAGES, fails) case FailedAt(k) => Unwound(k, fails) case _ => false }
    {
      var ok := Try(8, fails); if !ok { return FailedAt(8); }
      ok := Try(9, fails); if !ok { return FailedAt(9); }
      ok := Try(10, fails); if !ok { return FailedAt(10); }
      ok := Try(11, fails); if !ok { return FailedAt(11); }
      ok := Try(12, fails); if !ok { return FailedAt(12); }
      ok := Try(13, fails); if !ok { return FailedAt(13); }
      ok := Try(14, fails); if !ok { return FailedAt(14); }
      outcome := Loaded;
    }

    method ChooseChip(chipType: int, board: Board) returns (known: bool)
      modifies `chip
      ensures known <==> Chosen(chipType, board) != {}
      ensures if known then Chosen(chipType, board) == {chip} else chip == old(chip)
    {
      var kind := chipType;
      if kind == -1 { kind := match board case EnxBoard => 0 case GtxBoard => 1 case NoBoard => -1; }
      if kind != 0 && kind != 1 { return false; }
      chip := if kind == 0 then Enx else Gtx;
      known := true;
    }

    method Init(chipType: int, board: Board, noWatchdog: bool, fails: nat -> bool) returns (outcome: Outcome)
      requires initState == 0 && held == acquired == released == [] && !watchdog
      modifies this
      ensures outcome.Unsupported? <==> Chosen(chipType, board) == {}
      ensures outcome.Unsupported? ==> unchanged(this)
      ensures !outcome.Unsupported? ==> Chosen(chipType, board) == {chip}
      ensures outcome.FailedAt? ==> Unwound(outcome.stage, fails) && !watchdog
      ensures outcome.Loaded? ==> Up(STAGES, fails) && (watchdog <==> !noWatchdog && chip.Enx?)
    {
      var known := ChooseChip(chipType, board);
      if !known { return Unsupported; }
      assert Up(0, fails);
      outcome := InitMemory(fails);
      if !outcome.Loaded? { return; }
      outcome := InitChip(fails);
      if !outcome.Loaded? { return; }
      outcome := InitBlocks(fails);
      if !outcome.Loaded? { return; }
      if !noWatchdog {
        if chip == Enx { watchdog := true; }
      }
    }
  }

  /** Loaded, or why not: an unknown chip, or a stage that failed. */
  datatype Outcome = Loaded | Unsupported | FailedAt(stage: nat)

  predicate Passes(c: Config, fails: nat -> bool, k: nat) { !Has(c, k) || k == CHIP_STAGE || !fails(k) }

  /** The chip the driver is to run, if any: told by its parameter, or detected when that is -1. */
  function Chosen(chipType: int, board: Board): set<Chip> {
    if chipType == -1 then (match board case EnxBoard => {Enx} case GtxBoard => {Gtx} case NoBoard => {})
    else if chipType == 0 then {Enx} else if chipType == 1 then {Gtx} else {}
  }

  function Min(a: nat, b: nat): nat { if a <= b then a else b }

  /** For every build, board and pattern of failures: an initialization that fails has released exactly what it
      acquired, in reverse, and one that succeeds is undone the same way by the exit, but for the watchdog thread. */
  method LoadAndUnload(config: Config, chipType: int, board: Board, noWatchdog: bool, fails: nat -> bool)
    returns (core: Core, outcome: Outcome)
    ensures fresh(core) && core.config == config
    ensures core.held == [] && core.acquired == Reversed(core.released)
    ensures outcome.Loaded? <==>
      Chosen(chipType, board) != {} && forall k :: 1 <= k <= 14 ==> Passes(config, fails, k)
    ensures outcome.Loaded? ==> core.acquired == Stack(config, core.chip, STAGES)
    ensures outcome.Loaded? ==> core.acquired == Everything(config, core.chip)
    ensures outcome.FailedAt? ==> core.Unwound(outcome.stage, fails)
    ensures core.watchdog <==> outcome.Loaded? && !noWatchdog && core.chip.Enx?
  {
    core := new Core(config);
    outcome := core.Init(chipType, board, noWatchdog, fails);
    StackIs(config, core.chip);
    if outcome.Loaded? { core.Exit(); }
  }
}
