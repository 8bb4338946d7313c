/**
 The candy machine over its config account (rust/nft-candy-machine/src/lib.rs):
 lines are added in batches, the machine opens once enough are there, and each
 mint takes the next line.
 */
module CandyMachine {
  import opened Prelude
  import opened ConfigLines

  datatype Failure =
    | Config(error: Error)
    | AccountMissing // no machine has been initialised
    | AccountInUse // it has been already
    | ConfigLineMismatch
    | ConfigMustHaveAtleastOneEntry
    | CandyMachineEmpty
    | NumericalOverflowError

  datatype Machine = Machine(itemsAvailable: u64, itemsRedeemed: u64)

  datatype Instruction =
    | AddLines(index: u32, lines: seq<ConfigLine>)
    | Initialize(itemsAvailable: u64)
    | Mint

  /** The bytes of the config account, the machine, and the lines minted so far. */
  datatype Shop = Shop(data: seq<byte>, machine: Option<Machine>, minted: seq<ConfigLine>)

  function FromConfig<T>(r: Result<T, Error>): Result<T, Failure> {
    if r.Ok? then Ok(r.value) else Err(Config(r.error))
  }

  function InitializeMachine(data: seq<byte>, itemsAvailable: u64): Result<Machine, Failure> {
    var count :- FromConfig(GetConfigCount(data));
    :- Need(count >= itemsAvailable, ConfigLineMismatch);
    :- Need(GetConfigLine(data, 0).Ok?, ConfigMustHaveAtleastOneEntry);
    Ok(Machine(itemsAvailable, 0))
  }

  datatype Minting = Minting(line: ConfigLine, machine: Machine)

  function MintLine(data: seq<byte>, m: Machine): Result<Minting, Failure> {
    if m.itemsRedeemed >= m.itemsAvailable then Err(CandyMachineEmpty)
    else
      var line :- FromConfig(GetConfigLine(data, m.itemsRedeemed));
      :- Need(m.itemsRedeemed + 1 <= U64_MAX, NumericalOverflowError);
      Ok(Minting(line, m.(itemsRedeemed := m.itemsRedeemed + 1)))
  }

  function Apply(max: u32, s: Shop, i: Instruction): Result<Shop, Failure> {
    match i
    case AddLines(index, lines) =>
      var data :- FromConfig(AddConfigLines(s.data, max, index, lines));
      Ok(s.(data := data))
    case Initialize(itemsAvailable) =>
      :- Need(s.machine.None?, AccountInUse);
      var m :- InitializeMachine(s.data, itemsAvailable);
      Ok(s.(machine := Some(m)))
    case Mint =>
      :- Need(s.machine.Some?, AccountMissing);
      var minting :- MintLine(s.data, s.machine.value);
      Ok(s.(machine := Some(minting.machine), minted := s.minted + [minting.line]))
  }

  // ---------------------------------------------------------------------------
  // The same machine over a catalogue of lines instead of bytes

  datatype Catalogue = Catalogue(written: Lines, machine: Option<Machine>, minted: seq<ConfigLine>)

  function ApplyAbstract(max: u32, c: Catalogue, i: Instruction): Result<Catalogue, Failure> {
    match i
    case AddLines(index, lines) =>
      :- Need(max == 0 || index < max, Config(IndexGreaterThanLength));
      :- Need(AllFit(lines), Config(Aborted));
      Ok(c.(written := WithLines(c.written, index, lines)))
    case Initialize(itemsAvailable) =>
      :- Need(c.machine.None?, AccountInUse);
      :- Need(|c.written| >= itemsAvailable, ConfigLineMismatch);
      :- Need(0 in c.written, ConfigMustHaveAtleastOneEntry);
      Ok(c.(machine := Some(Machine(itemsAvailable, 0))))
    case Mint =>
      :- Need(c.machine.Some?, AccountMissing);
      var m := c.machine.value;
      :- Need(m.itemsRedeemed < m.itemsAvailable, CandyMachineEmpty);
      :- Need(m.itemsRedeemed in c.written, Config(BorshIoError));
      :- Need(m.itemsRedeemed + 1 <= U64_MAX, NumericalOverflowError);
      Ok(c.(machine := Some(m.(itemsRedeemed := m.itemsRedeemed + 1)),
            minted := c.minted + [c.written[m.itemsRedeemed]]))
  }

  /** Batches stay within the lines of the account: the program itself checks their first index only. */
  predicate Within(max: u32, i: Instruction) {
    i.AddLines? ==> i.index < max && i.index + |i.lines| <= max
  }

  ghost predicate Agrees(max: u32, s: Shop, c: Catalogue) {
    && Represents(s.data, max, c.written)
    && s.machine == c.machine
    && s.minted == c.minted
  }

  /** Redeemed, available, written: each is covered by the next, and one line was minted per item redeemed. */
  ghost predicate Stocked(max: u32, c: Catalogue) {
    && Proper(max, c.written)
    && |c.written| <= max
    && match c.machine
       case None => c.minted == []
       case Some(m) => |c.minted| == m.itemsRedeemed <= m.itemsAvailable <= |c.written|
  }

  // ---------------------------------------------------------------------------
  // The bytes refine the catalogue

  lemma AddRefines(max: u32, s: Shop, c: Catalogue, index: u32, lines: seq<ConfigLine>)
    requires Agrees(max, s, c) && Within(max, AddLines(index, lines))
    ensures var a, b := Apply(max, s, AddLines(index, lines)), ApplyAbstract(max, c, AddLines(index, lines));
      if b.Ok? then a.Ok? && Agrees(max, a.value, b.value) else a == Err(b.error)
  {
    if AllFit(lines) {
      AddKeepsStore(s.data, max, c.written, index, lines);
    }
  }

  lemma InitializeRefines(max: u32, s: Shop, c: Catalogue, itemsAvailable: u64)
    requires Agrees(max, s, c) && max > 0
    ensures var a, b := Apply(max, s, Initialize(itemsAvailable)), ApplyAbstract(max, c, Initialize(itemsAvailable));
      if b.Ok? then a.Ok? && Agrees(max, a.value, b.value) else a == Err(b.error)
  {
    GetGivesWritten(s.data, max, c.written, 0);
  }

  lemma MintRefines(max: u32, s: Shop, c: Catalogue)
    requires Agrees(max, s, c) && Stocked(max, c)
    ensures var a, b := Apply(max, s, Mint), ApplyAbstract(max, c, Mint);
      if b.Ok? then a.Ok? && Agrees(max, a.value, b.value) else a == Err(b.error)
  {
    if c.machine.Some? && c.machine.value.itemsRedeemed < c.machine.value.itemsAvailable {
      GetGivesWritten(s.data, max, c.written, c.machine.value.itemsRedeemed);
    }
  }

  lemma {:induction false} LinesOnlyGrow(written: Lines, index: nat, lines: seq<ConfigLine>)
    requires AllFit(lines)
    ensures |WithLines(written, index, lines)| >= |written|
  {
    if lines != [] {
      LinesOnlyGrow(written, index, lines[..|lines| - 1]);
    }
  }

  lemma AddKeepsStocked(max: u32, c: Catalogue, index: u32, lines: seq<ConfigLine>)
    requires Stocked(max, c) && AllFit(lines) && index + |lines| <= max
    ensures Stocked(max, c.(written := WithLines(c.written, index, lines)))
  {
    WithLinesProper(max, c.written, index, lines);
    NumbersBelow(max, WithLines(c.written, index, lines).Keys);
    LinesOnlyGrow(c.written, index, lines);
  }

  function Step(max: u32, s: Shop, i: Instruction): Shop {
    var r := Apply(max, s, i);
    if r.Ok? then r.value else s
  }

  function StepAbstract(max: u32, c: Catalogue, i: Instruction): Catalogue {
    var r := ApplyAbstract(max, c, i);
    if r.Ok? then r.value else c
  }

  function Run(max: u32, s: Shop, run: seq<Instruction>): Shop {
    if run == [] then s else Step(max, Run(max, s, run[..|run| - 1]), run[|run| - 1])
  }

  function RunAbstract(max: u32, run: seq<Instruction>): Catalogue {
    if run == [] then Catalogue(map[], None, [])
    else StepAbstract(max, RunAbstract(max, run[..|run| - 1]), run[|run| - 1])
  }

  predicate AllWithin(max: u32, run: seq<Instruction>) {
    forall j :: 0 <= j < |run| ==> Within(max, run[j])
  }

  lemma {:induction false} RunKeepsStocked(max: u32, run: seq<Instruction>)
    requires AllWithin(max, run)
    ensures Stocked(max, RunAbstract(max, run))
  {
    if run != [] {
      var before, last := run[..|run| - 1], run[|run| - 1];
      RunKeepsStocked(max, before);
      if last.AddLines? && AllFit(last.lines) {
        AddKeepsStocked(max, RunAbstract(max, before), last.index, last.lines);
      }
    }
  }

  lemma StepRefines(max: u32, s: Shop, c: Catalogue, i: Instruction)
    requires Agrees(max, s, c) && Stocked(max, c) && Within(max, i) && max > 0
    ensures Agrees(max, Step(max, s, i), StepAbstract(max, c, i))
  {
    match i {
      case AddLines(index, lines) => AddRefines(max, s, c, index, lines);
      case Initialize(itemsAvailable) => InitializeRefines(max, s, c, itemsAvailable);
      case Mint => MintRefines(max, s, c);
    }
  }

  /** A config account fresh from initialize_config. */
  function NewShop(size: nat, header: seq<byte>, creators: nat, max: u32): Shop
    requires InitializeConfig(size, header, creators, max).Ok?
  {
    Shop(InitializeConfig(size, header, creators, max).value, None, [])
  }

  /** After any run of batches that fit, the bytes hold the lines of the catalogue and the machine is the same. */
  lemma {:induction false} RunRefines(max: u32, size: nat, header: seq<byte>, creators: nat, run: seq<Instruction>)
    requires max > 0 && |header| == HeaderSize(creators) && creators <= 4
    requires size >= MaskAt(max) + (max + 7) / 8
    requires AllWithin(max, run)
    ensures InitializeConfig(size, header, creators, max).Ok?
    ensures Agrees(max, Run(max, NewShop(size, header, creators, max), run), RunAbstract(max, run))
  {
    InitialStore(size, header, creators, max);
    if run != [] {
      var before, last := run[..|run| - 1], run[|run| - 1];
      RunRefines(max, size, header, creators, before);
      RunKeepsStocked(max, before);
      StepRefines(max, Run(max, NewShop(size, header, creators, max), before), RunAbstract(max, before), last);
    }
  }

  // ---------------------------------------------------------------------------
  // Minting

  /** A mint fails only when the machine is empty or the next line was never written. */
  lemma MintSucceedsIff(max: u32, s: Shop, c: Catalogue)
    requires Agrees(max, s, c) && Stocked(max, c)
    ensures Apply(max, s, Mint).Ok? <==>
            && c.machine.Some?
            && c.machine.value.itemsRedeemed < c.machine.value.itemsAvailable
            && c.machine.value.itemsRedeemed in c.written
    ensures Apply(max, s, Mint).Ok? ==>
            var n := c.machine.value.itemsRedeemed;
            Apply(max, s, Mint).value ==
            Shop(s.data, Some(c.machine.value.(itemsRedeemed := n + 1)), s.minted + [c.written[n]])
  {
    MintRefines(max, s, c);
  }

  lemma {:induction false} AllNumbers(max: nat, numbers: set<nat>, i: nat)
    requires forall n :: n in numbers ==> n < max
    requires |numbers| == max && i < max
    ensures i in numbers
  {
    var last: nat := max - 1;
    if last !in numbers {
      NumbersBelow(last, numbers);
      assert false;
    }
    if i != last {
      AllNumbers(last, numbers - {last}, i);
    }
  }

  /** When every line has been written the machine mints the lines in order until it is empty. */
  lemma FullMachineMints(max: u32, s: Shop, c: Catalogue, m: Machine)
    requires Agrees(max, s, c) && Stocked(max, c)
    requires |c.written| == max && c.machine == Some(m)
    ensures m.itemsRedeemed < m.itemsAvailable ==>
            && m.itemsRedeemed in c.written
            && Apply(max, s, Mint) ==
               Ok(Shop(s.data, Some(m.(itemsRedeemed := m.itemsRedeemed + 1)), s.minted + [c.written[m.itemsRedeemed]]))
    ensures m.itemsRedeemed == m.itemsAvailable ==> Apply(max, s, Mint) == Err(CandyMachineEmpty)
  {
    if m.itemsRedeemed < m.itemsAvailable {
      AllNumbers(max, c.written.Keys, m.itemsRedeemed);
      GetGivesWritten(s.data, max, c.written, m.itemsRedeemed);
    }
  }

  /** The n-th step of the run is a mint, the (k+1)-th that succeeds, and line k then stands as given. */
  ghost predicate MintedBy(max: u32, run: seq<Instruction>, n: nat, k: nat, line: ConfigLine) {
    && n < |run| && run[n].Mint?
    && |RunAbstract(max, run[..n]).minted| == k
    && |RunAbstract(max, run[..n + 1]).minted| == k + 1
    && k in RunAbstract(max, run[..n]).written
    && RunAbstract(max, run[..n]).written[k] == line
  }

  lemma MintTakesNextLine(max: u32, c: Catalogue, i: Instruction, k: nat)
    requires Stocked(max, c)
    requires k < |StepAbstract(max, c, i).minted|
    ensures k < |c.minted| ==> StepAbstract(max, c, i).minted[k] == c.minted[k]
    ensures k >= |c.minted| ==>
            && i.Mint? && |c.minted| == k && |StepAbstract(max, c, i).minted| == k + 1
            && k in c.written && StepAbstract(max, c, i).minted[k] == c.written[k]
  {
  }

  lemma MintedBefore(max: u32, run: seq<Instruction>, n: nat, k: nat, line: ConfigLine)
    requires run != [] && MintedBy(max, run[..|run| - 1], n, k, line)
    ensures MintedBy(max, run, n, k, line)
  {
    assert run[..|run| - 1][..n] == run[..n];
    assert run[..|run| - 1][..n + 1] == run[..n + 1];
  }

  lemma MintedNow(max: u32, run: seq<Instruction>, n: nat, k: nat, line: ConfigLine, c: Catalogue)
    requires |run| == n + 1 && run[n].Mint? && c == RunAbstract(max, run[..n])
    requires |c.minted| == k && |StepAbstract(max, c, run[n]).minted| == k + 1
    requires k in c.written && c.written[k] == line
    ensures MintedBy(max, run, n, k, line)
  {
    assert run[..n + 1] == run;
  }

  /** The (k+1)-th mint of any run took line k as it stood at that very mint, so no line is ever taken twice. */
  lemma {:induction false} EachMintTakesItsLine(max: u32, run: seq<Instruction>, k: nat, line: ConfigLine)
    returns (n: nat)
    requires AllWithin(max, run)
    requires k < |RunAbstract(max, run).minted| && RunAbstract(max, run).minted[k] == line
    ensures MintedBy(max, run, n, k, line)
  {
    n := |run| - 1;
    var c := RunAbstract(max, run[..n]);
    RunKeepsStocked(max, run[..n]);
    MintTakesNextLine(max, c, run[n], k);
    if k < |c.minted| {
      n := EachMintTakesItsLine(max, run[..n], k, line);
      MintedBefore(max, run, n, k, line);
    } else {
      MintedNow(max, run, n, k, line, c);
    }
  }

  // ---------------------------------------------------------------------------
  // What is minted is what was given

  /** The batch sets line i. */
  predicate Sets(i: Instruction, line: nat) {
    i.AddLines? && AllFit(i.lines) && i.index <= line < i.index + |i.lines|
  }

  /** The b-th step of the run is the last batch that sets line i, and the line shows what it gave. */
  ghost predicate GivenBy(run: seq<Instruction>, b: nat, i: nat, line: ConfigLine) {
    && b < |run| && Sets(run[b], i)
    && Shows(line, run[b].lines[i - run[b].index])
    && forall later :: b < later < |run| ==> !Sets(run[later], i)
  }

  lemma StepSets(max: u32, c: Catalogue, step: Instruction, i: nat)
    requires Within(max, step) && i in StepAbstract(max, c, step).written
    ensures if Sets(step, i) then Shows(StepAbstract(max, c, step).written[i], step.lines[i - step.index])
            else i in c.written && StepAbstract(max, c, step).written[i] == c.written[i]
  {
    if step.AddLines? && AllFit(step.lines) {
      WithLinesAt(c.written, step.index, step.lines, i);
      if Sets(step, i) {
        PaddedShows(step.lines[i - step.index]);
      }
    }
  }

  /** A written line shows what the last batch that set it gave. */
  lemma {:induction false} WrittenIsGiven(max: u32, run: seq<Instruction>, i: nat) returns (b: nat)
    requires AllWithin(max, run) && i in RunAbstract(max, run).written
    ensures GivenBy(run, b, i, RunAbstract(max, run).written[i])
  {
    b := |run| - 1;
    StepSets(max, RunAbstract(max, run[..b]), run[b], i);
    if !Sets(run[b], i) {
      var last := b;
      b := WrittenIsGiven(max, run[..last], i);
      GivenBefore(run, last, b, i, RunAbstract(max, run).written[i]);
    }
  }

  lemma GivenBefore(run: seq<Instruction>, last: nat, b: nat, i: nat, line: ConfigLine)
    requires |run| == last + 1 && GivenBy(run[..last], b, i, line) && !Sets(run[last], i)
    ensures GivenBy(run, b, i, line)
  {
    assert run[..last][b] == run[b];
    forall later | b < later < |run|
      ensures !Sets(run[later], i)
    {
      if later < last {
        assert run[..last][later] == run[later];
      }
    }
  }

  /**
   Whatever batches within max a config account has taken, the (k+1)-th line
   that is minted has the name and the uri, followed by zeros, that the last
   batch to set line k before the mint gave.
   */
  lemma MintedIsGiven(max: u32, size: nat, header: seq<byte>, creators: nat, run: seq<Instruction>, k: nat)
    returns (n: nat, b: nat)
    requires max > 0 && |header| == HeaderSize(creators) && creators <= 4
    requires size >= MaskAt(max) + (max + 7) / 8
    requires AllWithin(max, run) && InitializeConfig(size, header, creators, max).Ok?
    requires k < |Run(max, NewShop(size, header, creators, max), run).minted|
    ensures n < |run| && run[n].Mint?
    ensures GivenBy(run[..n], b, k, Run(max, NewShop(size, header, creators, max), run).minted[k])
  {
    RunRefines(max, size, header, creators, run);
    var line := RunAbstract(max, run).minted[k];
    n := EachMintTakesItsLine(max, run, k, line);
    b := WrittenIsGiven(max, run[..n], k);
  }

  /** A machine opens once, when as many lines are written as are to be sold, the first among them. */
  lemma InitializeSucceedsIff(max: u32, s: Shop, c: Catalogue, itemsAvailable: u64)
    requires Agrees(max, s, c) && max > 0
    ensures Apply(max, s, Initialize(itemsAvailable)).Ok? <==>
            c.machine.None? && |c.written| >= itemsAvailable && 0 in c.written
    ensures Apply(max, s, Initialize(itemsAvailable)).Ok? ==>
            Apply(max, s, Initialize(itemsAvailable)).value == s.(machine := Some(Machine(itemsAvailable, 0)))
  {
    GetGivesWritten(s.data, max, c.written, 0);
  }

  // ---------------------------------------------------------------------------
  // The machine's account

  class MachineAccount {
    const config: ConfigAccount
    var itemsAvailable: u64
    var itemsRedeemed: u64

    ghost function View(): Machine
      reads this
    {
      Machine(itemsAvailable, itemsRedeemed)
    }

    /** A new account is all zeros. */
    constructor (config: ConfigAccount)
      ensures this.config == config && View() == Machine(0, 0)
    {
      this.config := config;
      itemsAvailable, itemsRedeemed := 0, 0;
    }

    /** initialize_candy_machine */
    method Initialize(items: u64) returns (r: Result<(), Failure>)
      requires View() == Machine(0, 0)
      modifies this
      ensures match InitializeMachine(config.data[..], items)
              case Ok(m) => r == Ok(()) && View() == m
              case Err(e) => r == Err(e) && View() == old(View())
    {
      var count := config.Count();
      if count.Err? {
        return Err(Config(count.error));
      }
      if count.value < items {
        return Err(ConfigLineMismatch);
      }
      var first := config.Get(0);
      if first.Err? {
        return Err(ConfigMustHaveAtleastOneEntry);
      }
      itemsAvailable := items;
      r := Ok(());
    }

    /** The index and counter part of mint_nft. */
    method MintNft() returns (r: Result<ConfigLine, Failure>)
      modifies this`itemsRedeemed
      ensures match MintLine(config.data[..], old(View()))
              case Ok(minting) => r == Ok(minting.line) && View() == minting.machine
              case Err(e) => r == Err(e) && View() == old(View())
    {
      if itemsRedeemed >= itemsAvailable {
        return Err(CandyMachineEmpty);
      }
      var line := config.Get(itemsRedeemed);
      if line.Err? {
        return Err(Config(line.error));
      }
      if itemsRedeemed + 1 > U64_MAX {
        return Err(NumericalOverflowError);
      }
      itemsRedeemed := itemsRedeemed + 1;
      r := Ok(line.value);
    }
  }
}
