/**
 The first auction manager (rust/metaplex/program/src/deprecated_state.rs):
 saving a claim by patching two bytes of the stored manager, and the edition
 numbers that each winner may redeem.
 */
module AuctionManager {
  import opened Prelude
  import opened Borsh

  // ---------------------------------------------------------------------------
  // The stored manager

  datatype StateItem = StateItem(primarySaleHappened: bool, claimed: bool)

  datatype ConfigState = ConfigState(items: seq<StateItem>, moneyPushed: bool)

  /**
   The manager as it is stored: the account kind and five keys, the status, the
   number of validated items, the winning config states, and whatever follows.
   */
  datatype Manager = Manager(
    head: seq<byte>,
    status: byte,
    itemsValidated: byte,
    states: seq<ConfigState>,
    tail: seq<byte>
  )

  predicate Storable(m: Manager) {
    && |m.head| == 161
    && |m.states| <= U32_MAX
    && forall i :: 0 <= i < |m.states| ==> |m.states[i].items| <= U32_MAX
  }

  function EncodeBool(b: bool): byte {
    if b then 1 else 0
  }

  function EncodeItems(items: seq<StateItem>): (r: seq<byte>)
    ensures |r| == 2 * |items|
  {
    if items == [] then []
    else
      var last := items[|items| - 1];
      EncodeItems(items[..|items| - 1]) + [EncodeBool(last.primarySaleHappened), EncodeBool(last.claimed)]
  }

  function EncodeState(s: ConfigState): (r: seq<byte>)
    ensures |r| == 4 + 2 * |s.items| + 1
  {
    LittleEndian(|s.items|, 4) + EncodeItems(s.items) + [EncodeBool(s.moneyPushed)]
  }

  function EncodeStates(states: seq<ConfigState>): seq<byte> {
    if states == [] then [] else EncodeStates(states[..|states| - 1]) + EncodeState(states[|states| - 1])
  }

  /** Everything before the first config state. */
  function EncodeFront(m: Manager): (r: seq<byte>)
    requires |m.head| == 161
    ensures |r| == 167
  {
    m.head + [m.status, m.itemsValidated] + LittleEndian(|m.states|, 4)
  }

  function Serialize(m: Manager): seq<byte>
    requires |m.head| == 161
  {
    EncodeFront(m) + EncodeStates(m.states) + m.tail
  }

  /** The manager with its new status and one item claimed. */
  function Claimed(m: Manager, status: byte, config: nat, item: nat): Manager
    requires config < |m.states| && item < |m.states[config].items|
  {
    var s := m.states[config];
    m.(status := status,
       states := m.states[config := s.(items := s.items[item := s.items[item].(claimed := true)])])
  }

  datatype ManagerError = SafetyDepositBoxNotUsedInAuction | PrizeAlreadyClaimed | InvalidEditionNumber | Aborted

  // ---------------------------------------------------------------------------
  // Offsets

  /** Where the i-th config state begins. */
  function StateOffset(states: seq<ConfigState>, i: nat): nat
    requires i <= |states|
  {
    167 + |EncodeStates(states[..i])|
  }

  /** Where the walk finds the claimed flag. */
  function ClaimOffset(states: seq<ConfigState>, config: nat, item: nat): nat
    requires config <= |states|
  {
    StateOffset(states, config) + 4 + item * 2 + 1
  }

  /** Where the straight shot looks for it. */
  function StraightShotOffset(config: nat): nat {
    167 + (4 + 2 + 1) * config + 4 + 1
  }

  /** The byte that is set to mark the claim. */
  function TargetOffset(states: seq<ConfigState>, straightShot: bool, config: nat, item: nat): nat
    requires config <= |states|
  {
    if straightShot then StraightShotOffset(config) else ClaimOffset(states, config, item)
  }

  function ItemsBefore(states: seq<ConfigState>, config: nat): nat
    requires config <= |states|
  {
    if config == 0 then 0 else ItemsBefore(states, config - 1) + |states[config - 1].items|
  }

  lemma {:induction false} StateOffsetCounts(states: seq<ConfigState>, i: nat)
    requires i <= |states|
    ensures StateOffset(states, i) == 167 + 5 * i + 2 * ItemsBefore(states, i)
    ensures i < |states| ==> StateOffset(states, i + 1) == StateOffset(states, i) + 4 + 2 * |states[i].items| + 1
  {
    if i < |states| {
      assert states[..i + 1][..i] == states[..i];
    }
    if i > 0 {
      StateOffsetCounts(states, i - 1);
    }
  }

  /** The straight shot hits the flag exactly when as many items lie before it as configs do. */
  lemma StraightShotIff(states: seq<ConfigState>, config: nat, item: nat)
    requires config <= |states|
    ensures StraightShotOffset(config) == ClaimOffset(states, config, item) <==>
            ItemsBefore(states, config) + item == config
  {
    StateOffsetCounts(states, config);
  }

  /** It does when every config has one item. */
  lemma {:induction false} OneItemEach(states: seq<ConfigState>, config: nat)
    requires config <= |states|
    requires forall i :: 0 <= i < |states| ==> |states[i].items| == 1
    ensures ItemsBefore(states, config) == config
    ensures StraightShotOffset(config) == ClaimOffset(states, config, 0)
    decreases config
  {
    if config > 0 {
      OneItemEach(states, config - 1);
    }
    StraightShotIff(states, config, 0);
  }

  // ---------------------------------------------------------------------------
  // Patching is saving

  lemma {:induction false} EncodeStatesConcat(a: seq<ConfigState>, b: seq<ConfigState>)
    ensures EncodeStates(a + b) == EncodeStates(a) + EncodeStates(b)
  {
    if b == [] {
      assert a + b == a;
    } else {
      var init, last := b[..|b| - 1], b[|b| - 1];
      assert (a + b)[..|a + b| - 1] == a + init;
      assert (a + b)[|a + b| - 1] == last;
      EncodeStatesConcat(a, init);
      Associate(EncodeStates(a), EncodeStates(init), EncodeState(last));
    }
  }

  lemma Associate(a: seq<byte>, b: seq<byte>, c: seq<byte>)
    ensures (a + b) + c == a + (b + c)
  {
  }

  /** The states around the i-th one. */
  lemma EncodeStatesAround(states: seq<ConfigState>, i: nat, s: ConfigState)
    requires i < |states|
    ensures EncodeStates(states[i := s]) == EncodeStates(states[..i]) + EncodeState(s) + EncodeStates(states[i + 1..])
  {
    assert states[i := s] == states[..i] + [s] + states[i + 1..];
    EncodeStatesConcat(states[..i] + [s], states[i + 1..]);
    EncodeStatesConcat(states[..i], [s]);
    assert [s][..0] == [];
  }

  lemma {:induction false} EncodeItemsUpdate(items: seq<StateItem>, j: nat)
    requires j < |items|
    ensures EncodeItems(items[j := items[j].(claimed := true)]) == EncodeItems(items)[2 * j + 1 := 1]
  {
    var last := |items| - 1;
    var after := items[j := items[j].(claimed := true)];
    if j < last {
      EncodeItemsUpdate(items[..last], j);
      assert after[..last] == items[..last][j := items[j].(claimed := true)];
    } else {
      assert after[..last] == items[..last];
    }
  }

  lemma EncodeStateUpdate(s: ConfigState, j: nat)
    requires j < |s.items|
    ensures EncodeState(s.(items := s.items[j := s.items[j].(claimed := true)])) == EncodeState(s)[4 + 2 * j + 1 := 1]
  {
    EncodeItemsUpdate(s.items, j);
  }

  lemma FrontParts(m: Manager, status: byte)
    requires Storable(m)
    ensures EncodeFront(m)[163..] == LittleEndian(|m.states|, 4)
    ensures EncodeFront(m)[161 := status] == EncodeFront(m.(status := status))
  {
  }

  /** The encodings before and after a claim differ in the one flag. */
  lemma ClaimInStates(states: seq<ConfigState>, config: nat, item: nat)
    requires config < |states| && item < |states[config].items|
    ensures var s := states[config];
      var claimed := states[config := s.(items := s.items[item := s.items[item].(claimed := true)])];
      var before, middle, after := EncodeStates(states[..config]), EncodeState(s), EncodeStates(states[config + 1..]);
      && EncodeStates(states) == before + middle + after
      && EncodeStates(claimed) == before + middle[4 + 2 * item + 1 := 1] + after
  {
    var s := states[config];
    EncodeStatesAround(states, config, s);
    EncodeStatesAround(states, config, s.(items := s.items[item := s.items[item].(claimed := true)]));
    EncodeStateUpdate(s, item);
    assert states[config := s] == states;
  }

  /** Two single-byte patches, one in the front and one in the middle of what follows. */
  lemma PatchTwo(front: seq<byte>, before: seq<byte>, middle: seq<byte>, after: seq<byte>, tail: seq<byte>,
                 i: nat, b: byte, j: nat, c: byte)
    requires i < |front| && j < |middle|
    ensures (front + (before + middle + after) + tail)[i := b][|front| + |before| + j := c]
         == front[i := b] + (before + middle[j := c] + after) + tail
  {
    var all := front + (before + middle + after) + tail;
    var want := front[i := b] + (before + middle[j := c] + after) + tail;
    assert |all| == |want|;
    assert all == front + before + middle + after + tail;
    assert want == front[i := b] + before + middle[j := c] + after + tail;
  }

  /** Marking the byte of one item's flag is serializing the manager with that item claimed. */
  lemma PatchIsSave(m: Manager, status: byte, config: nat, item: nat)
    requires Storable(m) && config < |m.states| && item < |m.states[config].items|
    ensures 161 < ClaimOffset(m.states, config, item) < |Serialize(m)|
    ensures Serialize(m)[161 := status][ClaimOffset(m.states, config, item) := 1]
         == Serialize(Claimed(m, status, config, item))
  {
    var before, middle := EncodeStates(m.states[..config]), EncodeState(m.states[config]);
    var after := EncodeStates(m.states[config + 1..]);
    var j := 4 + 2 * item + 1;
    assert EncodeStates(m.states) == before + middle + after
        && EncodeStates(Claimed(m, status, config, item).states) == before + middle[j := 1] + after by {
      ClaimInStates(m.states, config, item);
    }
    assert EncodeFront(Claimed(m, status, config, item)) == EncodeFront(m)[161 := status] by { FrontParts(m, status); }
    PatchTwo(EncodeFront(m), before, middle, after, m.tail, 161, status, j, 1);
  }

  lemma {:induction false} ItemBytes(items: seq<StateItem>, j: nat)
    requires j < |items|
    ensures EncodeItems(items)[2 * j] == (if items[j].primarySaleHappened then 1 else 0)
    ensures EncodeItems(items)[2 * j + 1] == (if items[j].claimed then 1 else 0)
  {
    if j < |items| - 1 {
      ItemBytes(items[..|items| - 1], j);
    }
  }

  lemma StateBytes(s: ConfigState, j: nat, k: nat)
    requires j < |s.items| && k == 4 + 2 * j
    ensures EncodeState(s)[k] == (if s.items[j].primarySaleHappened then 1 else 0)
    ensures EncodeState(s)[k + 1] == (if s.items[j].claimed then 1 else 0)
  {
    ItemBytes(s.items, j);
  }

  lemma WithinParts(front: seq<byte>, before: seq<byte>, middle: seq<byte>, after: seq<byte>, tail: seq<byte>, k: nat,
                    at: nat)
    requires k + 1 < |middle| && at == |front| + |before| + k
    ensures at + 1 < |front + (before + middle + after) + tail|
    ensures (front + (before + middle + after) + tail)[at] == middle[k]
    ensures (front + (before + middle + after) + tail)[at + 1] == middle[k + 1]
  {
  }

  /** Where the two flags of an item lie: behind 167 bytes, five for each config before and two for each item. */
  lemma ItemInFigures(m: Manager, config: nat, item: nat, at: nat)
    requires Storable(m) && config < |m.states| && item < |m.states[config].items|
    requires at == 167 + 5 * config + 2 * ItemsBefore(m.states, config) + 4 + 2 * item
    ensures at + 1 < |Serialize(m)|
    ensures Serialize(m)[at] == (if m.states[config].items[item].primarySaleHappened then 1 else 0)
    ensures Serialize(m)[at + 1] == (if m.states[config].items[item].claimed then 1 else 0)
  {
    StateOffsetCounts(m.states, config);
    StatesAround(m.states, config);
    var k := 4 + 2 * item;
    StateBytes(m.states[config], item, k);
    WithinParts(EncodeFront(m), EncodeStates(m.states[..config]), EncodeState(m.states[config]),
                EncodeStates(m.states[config + 1..]), m.tail, k, at);
  }

  lemma StatesAround(states: seq<ConfigState>, i: nat)
    requires i < |states|
    ensures EncodeStates(states) == EncodeStates(states[..i]) + EncodeState(states[i]) + EncodeStates(states[i + 1..])
  {
    EncodeStatesAround(states, i, states[i]);
    assert states[i := states[i]] == states;
  }

  lemma WindowWithin(front: seq<byte>, before: seq<byte>, count: seq<byte>, after: seq<byte>)
    ensures Window(front + (before + (count + after)), |front| + |before|, |count|) == Some(count)
  {
    assert front + (before + (count + after)) == (front + before) + count + after;
    WindowOfMiddle(front + before, count, after);
  }

  /** The number of items of the i-th config, as stored. */
  lemma CountAt(m: Manager, pad: seq<byte>, i: nat)
    requires Storable(m) && i < |m.states|
    ensures Window(Serialize(m) + pad, StateOffset(m.states, i), 4) == Some(LittleEndian(|m.states[i].items|, 4))
  {
    var s := m.states[i];
    var before, after := EncodeStates(m.states[..i]), EncodeStates(m.states[i + 1..]);
    var count, rest := LittleEndian(|s.items|, 4), EncodeItems(s.items) + [EncodeBool(s.moneyPushed)];
    assert EncodeStates(m.states) == before + EncodeState(s) + after by {
      EncodeStatesAround(m.states, i, s);
      assert m.states[i := s] == m.states;
    }
    assert EncodeState(s) == count + rest;
    WindowWithin(EncodeFront(m), before, count, rest + after + m.tail + pad);
    Flatten(EncodeFront(m), before, count, rest, after, m.tail, pad);
  }

  lemma Flatten(front: seq<byte>, before: seq<byte>, count: seq<byte>, rest: seq<byte>, after: seq<byte>,
                tail: seq<byte>, pad: seq<byte>)
    ensures front + (before + (count + rest) + after) + tail + pad
         == front + (before + (count + (rest + after + tail + pad)))
  {
  }

  lemma NumConfigsAt(m: Manager, pad: seq<byte>)
    requires Storable(m)
    ensures Window(Serialize(m) + pad, 163, 4) == Some(LittleEndian(|m.states|, 4))
  {
    FrontParts(m, m.status);
    assert (Serialize(m) + pad)[163..167] == EncodeFront(m)[163..];
  }

  /** The two ways of finding the byte to set: straight to it, or by hopping over the configs before it. */
  method FindClaim(data: array<byte>, ghost m: Manager, ghost pad: seq<byte>, straightShot: bool,
                   config: nat, item: nat)
    returns (index: nat)
    requires Storable(m) && data[..] == Serialize(m) + pad
    requires config < |m.states| && item < |m.states[config].items|
    ensures index == TargetOffset(m.states, straightShot, config, item)
  {
    NumConfigsAt(m, pad);
    U32RoundTrip(|m.states|);
    var numConfigs := FromLittleEndian(data[163..167]);
    var offset := 167;
    if straightShot {
      var skip := (4 + 2 + 1) * config;
      return offset + skip + 4 + 1;
    }
    index := 0;
    for i := 0 to numConfigs
      invariant i <= config && offset == StateOffset(m.states, i)
    {
      CountAt(m, pad, i);
      U32RoundTrip(|m.states[i].items|);
      StateOffsetCounts(m.states, i);
      var numItems := FromLittleEndian(data[offset..offset + 4]);
      if config == i {
        return offset + 4 + item * 2 + 1;
      }
      offset := offset + 4 + 2 * numItems + 1;
    }
  }

  lemma PatchPadded(stored: seq<byte>, pad: seq<byte>, i: nat, b: byte, j: nat, c: byte)
    requires i < |stored| && j < |stored|
    ensures (stored + pad)[i := b][j := c] == stored[i := b][j := c] + pad
  {
  }

  /**
   fast_save patches the stored bytes in place: the status and the byte where it
   takes the claimed flag to be. Where that is the flag, the result is what
   serializing the manager with its new status and that item claimed would have
   stored. A patch past the account aborts, and the runtime rolls it back.
   */
  method FastSave(data: array<byte>, ghost m: Manager, ghost pad: seq<byte>, status: byte, straightShot: bool,
                  config: nat, item: nat)
    returns (r: Result<(), ManagerError>)
    requires Storable(m) && data[..] == Serialize(m) + pad
    requires config < |m.states| && item < |m.states[config].items|
    modifies data
    ensures var target := TargetOffset(m.states, straightShot, config, item);
      if target < data.Length
      then r == Ok(()) && data[..] == old(data[..])[161 := status][target := 1]
      else r == Err(Aborted) && data[..] == old(data[..])
    ensures (!straightShot || ItemsBefore(m.states, config) + item == config) ==>
            r == Ok(()) && data[..] == Serialize(Claimed(m, status, config, item)) + pad
  {
    ghost var stored := data[..];
    PatchIsSave(m, status, config, item);
    StraightShotIff(m.states, config, item);
    PatchPadded(Serialize(m), pad, 161, status, ClaimOffset(m.states, config, item), 1);
    var index := FindClaim(data, m, pad, straightShot, config, item);
    if index >= data.Length {
      return Err(Aborted);
    }
    data[161] := status;
    data[index] := 1;
    assert data[..] == stored[161 := status][index := 1];
    r := Ok(());
  }

  lemma PatchTail(front: seq<byte>, states: seq<byte>, tail: seq<byte>, i: nat, b: byte, c: byte)
    requires i < |front| && tail != []
    ensures (front + states + tail)[i := b][|front + states| := c] == front[i := b] + states + tail[0 := c]
  {
  }

  lemma EmptyThenOne(states: seq<ConfigState>, item: StateItem)
    requires |states| == 2 && states[0].items == [] && states[1].items == [item]
    ensures |EncodeStates(states)| == 12
  {
    assert EncodeStates(states) == EncodeStates(states[..1]) + EncodeState(states[1]);
    assert states[..1][..0] == [];
  }

  /**
   With an empty config before a config of one item the straight shot misses:
   instead of the item's flag it sets the first byte behind the config states.
   */
  lemma EmptyConfigMissesClaim(m: Manager, status: byte, item: StateItem)
    requires Storable(m) && m.tail != []
    requires |m.states| == 2 && m.states[0].items == [] && m.states[1].items == [item]
    ensures StraightShotOffset(1) < |Serialize(m)|
    ensures Serialize(m)[161 := status][StraightShotOffset(1) := 1]
         == Serialize(m.(status := status, tail := m.tail[0 := 1]))
  {
    EmptyThenOne(m.states, item);
    FrontParts(m, status);
    PatchTail(EncodeFront(m), EncodeStates(m.states), m.tail, 161, status, 1);
  }

  // ---------------------------------------------------------------------------
  // Edition numbers

  datatype WinningConfigItem = WinningConfigItem(safetyDepositBoxIndex: u8, amount: u8)

  /** The amount of the first item of this safety deposit box, if there is one. */
  function CountItemAmount(items: seq<WinningConfigItem>, order: u8): nat {
    if items == [] then 0
    else if items[0].safetyDepositBoxIndex == order then items[0].amount
    else CountItemAmount(items[1..], order)
  }

  /** The editions that go to the first n winners. */
  function EditionsBefore(configs: seq<seq<WinningConfigItem>>, order: u8, n: nat): nat
    requires n <= |configs|
  {
    if n == 0 then 0 else EditionsBefore(configs, order, n - 1) + CountItemAmount(configs[n - 1], order)
  }

  /** The position of the first item of this box. */
  function ItemIndex(items: seq<WinningConfigItem>, order: u8, from: nat): (r: Option<nat>)
    requires from <= |items|
    ensures r.Some? ==> from <= r.value < |items| && items[r.value].safetyDepositBoxIndex == order
    decreases |items| - from
  {
    if from == |items| then None
    else if items[from].safetyDepositBoxIndex == order then Some(from)
    else ItemIndex(items, order, from + 1)
  }

  /** common_winning_index_checks */
  function CommonChecks(configs: seq<seq<WinningConfigItem>>, states: seq<ConfigState>, order: u8, winner: nat,
                        ignoreClaim: bool): Result<nat, ManagerError> {
    if winner >= |configs| || winner >= |states| then Err(Aborted)
    else
      var index := ItemIndex(configs[winner], order, 0);
      :- Need(index.Some?, SafetyDepositBoxNotUsedInAuction);
      :- Need(index.value < |states[winner].items|, Aborted);
      :- Need(!states[winner].items[index.value].claimed || ignoreClaim, PrizeAlreadyClaimed);
      Ok(index.value)
  }

  /** The item at this position is the first of the box. */
  predicate IsFirstOf(items: seq<WinningConfigItem>, order: u8, i: nat) {
    && i < |items| && items[i].safetyDepositBoxIndex == order
    && forall j :: 0 <= j < i ==> items[j].safetyDepositBoxIndex != order
  }

  lemma {:induction false} ItemIndexFinds(items: seq<WinningConfigItem>, order: u8, from: nat, i: nat)
    requires from <= i && IsFirstOf(items, order, i)
    ensures ItemIndex(items, order, from) == Some(i)
    decreases i - from
  {
    if from < i {
      ItemIndexFinds(items, order, from + 1, i);
    }
  }

  /** A winner's amount is that of its first item of the box, and nothing without one. */
  lemma {:induction false} AmountIsFirst(items: seq<WinningConfigItem>, order: u8)
    ensures forall i: nat :: IsFirstOf(items, order, i) ==> CountItemAmount(items, order) == items[i].amount
    ensures (forall j :: 0 <= j < |items| ==> items[j].safetyDepositBoxIndex != order) ==>
              CountItemAmount(items, order) == 0
  {
    if items != [] && items[0].safetyDepositBoxIndex != order {
      AmountIsFirst(items[1..], order);
      forall i: nat | IsFirstOf(items, order, i)
        ensures CountItemAmount(items, order) == items[i].amount
      {
        assert IsFirstOf(items[1..], order, i - 1);
      }
    }
  }

  /** The winner's first item of the box counts, and is refused if it is claimed and that is not ignored. */
  lemma CommonChecksIff(configs: seq<seq<WinningConfigItem>>, states: seq<ConfigState>, order: u8, winner: nat,
                        ignoreClaim: bool, i: nat)
    requires winner < |configs| == |states| && |configs[winner]| == |states[winner].items|
    requires IsFirstOf(configs[winner], order, i)
    ensures CommonChecks(configs, states, order, winner, ignoreClaim) ==
            if states[winner].items[i].claimed && !ignoreClaim then Err(PrizeAlreadyClaimed) else Ok(i)
  {
    ItemIndexFinds(configs[winner], order, 0, i);
  }

  /** How many winners' amounts the loop has added up when it leaves: it may leave early at the number of winners. */
  function WinnersSummed(winner: nat, winners: nat, shortCircuit: bool): nat {
    if shortCircuit then winner else Min(winner, winners + 1)
  }

  datatype EditionCheck = EditionCheck(expectedRedemptions: nat, itemIndex: nat)

  /** printing_v2_calculation_checks */
  method PrintingV2CalculationChecks(configs: seq<seq<WinningConfigItem>>, states: seq<ConfigState>, order: u8,
                                     winner: nat, ignoreClaim: bool, shortCircuit: bool, winners: nat, edition: nat)
    returns (r: Result<EditionCheck, ManagerError>)
    ensures var common := CommonChecks(configs, states, order, winner, ignoreClaim);
      if common.Err? then r == Err(common.error)
      else
        var first := 1 + EditionsBefore(configs, order, WinnersSummed(winner, winners, shortCircuit));
        if first <= edition < first + CountItemAmount(configs[winner], order)
        then r == Ok(EditionCheck(if shortCircuit then 0 else EditionsBefore(configs, order, Min(winners, |configs|)),
                                  common.value))
        else r == Err(InvalidEditionNumber)
  {
    var common := CommonChecks(configs, states, order, winner, ignoreClaim);
    if common.Err? {
      return Err(common.error);
    }
    var first, expected := 1, 0;
    var n := 0;
    while n < |configs|
      invariant n <= |configs|
      invariant shortCircuit ==> n <= winner && expected == 0
      invariant !shortCircuit ==> n <= winners && expected == EditionsBefore(configs, order, n)
      invariant first == 1 + EditionsBefore(configs, order, Min(n, winner))
    {
      var matching := CountItemAmount(configs[n], order);
      if n < winner {
        first := first + matching;
      }
      if !shortCircuit {
        if n < winners {
          expected := expected + matching;
        } else {
          break;
        }
      } else if n >= winner {
        break;
      }
      n := n + 1;
    }
    var last := first + CountItemAmount(configs[winner], order);
    if edition < first || edition >= last {
      return Err(InvalidEditionNumber);
    }
    r := Ok(EditionCheck(expected, common.value));
  }

  /** The editions of one winner: a half-open range that starts where the previous winner's ends. */
  predicate InRange(configs: seq<seq<WinningConfigItem>>, order: u8, winner: nat, edition: nat)
    requires winner < |configs|
  {
    1 + EditionsBefore(configs, order, winner) <= edition < 1 + EditionsBefore(configs, order, winner + 1)
  }

  lemma {:induction false} EditionsMonotone(configs: seq<seq<WinningConfigItem>>, order: u8, a: nat, b: nat)
    requires a <= b <= |configs|
    ensures EditionsBefore(configs, order, a) <= EditionsBefore(configs, order, b)
    decreases b
  {
    if a < b {
      EditionsMonotone(configs, order, a, b - 1);
    }
  }

  /** No edition belongs to two winners. */
  lemma RangesDisjoint(configs: seq<seq<WinningConfigItem>>, order: u8, v: nat, w: nat, edition: nat)
    requires v < |configs| && w < |configs|
    requires InRange(configs, order, v, edition) && InRange(configs, order, w, edition)
    ensures v == w
  {
    if v < w {
      EditionsMonotone(configs, order, v + 1, w);
    } else if w < v {
      EditionsMonotone(configs, order, w + 1, v);
    }
  }

  /** The editions of the first n winners are exactly 1 to their total. */
  lemma {:induction false} RangesCover(configs: seq<seq<WinningConfigItem>>, order: u8, n: nat, edition: nat)
    requires n <= |configs|
    ensures 1 <= edition <= EditionsBefore(configs, order, n) <==>
      exists w: nat :: w < n && InRange(configs, order, w, edition)
  {
    if n > 0 {
      RangesCover(configs, order, n - 1, edition);
      EditionsMonotone(configs, order, 0, n - 1);
      if EditionsBefore(configs, order, n - 1) < edition <= EditionsBefore(configs, order, n) {
        assert InRange(configs, order, n - 1, edition);
      }
    }
  }

  /**
   The range that the check accepts is the winner's own exactly when the early
   exit leaves nothing out: always for a winner up to one past the number of
   winners, and beyond that only while the skipped winners get no edition.
   */
  lemma AcceptedRangeIff(configs: seq<seq<WinningConfigItem>>, order: u8, winner: nat, winners: nat, shortCircuit: bool)
    requires winner < |configs|
    ensures shortCircuit || winner <= winners + 1 ==>
      EditionsBefore(configs, order, WinnersSummed(winner, winners, shortCircuit)) ==
      EditionsBefore(configs, order, winner)
    ensures !shortCircuit && winner > winners + 1 ==>
      (EditionsBefore(configs, order, WinnersSummed(winner, winners, shortCircuit)) ==
       EditionsBefore(configs, order, winner) <==>
       forall k: nat :: winners + 1 <= k < winner ==> CountItemAmount(configs[k], order) == 0)
  {
    if !shortCircuit && winner > winners + 1 {
      EqualSumsIff(configs, order, winners + 1, winner);
    }
  }

  lemma {:induction false} EqualSumsIff(configs: seq<seq<WinningConfigItem>>, order: u8, a: nat, b: nat)
    requires a <= b <= |configs|
    ensures EditionsBefore(configs, order, a) == EditionsBefore(configs, order, b) <==>
      forall k: nat :: a <= k < b ==> CountItemAmount(configs[k], order) == 0
    decreases b
  {
    if a < b {
      EqualSumsIff(configs, order, a, b - 1);
      EditionsMonotone(configs, order, a, b - 1);
    }
  }
}
