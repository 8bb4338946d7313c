/** Phase three when the bitmap may be rewritten at will, as often as the authority likes. */
module PhaseThreeRewrites {
  import opened Prelude
  import opened FairLaunchErrors
  import opened LotteryBitmap
  import opened FairLaunch
  import opened LaunchInvariant
  import opened LaunchSteps
  import opened LaunchTheorems
  import opened PhaseThree
  import opened PhaseThreeRuns
  import opened PhaseThreeTheorems

  /** Whatever is called, the clock does not go back. */
  ghost predicate Forward(s: Launch, events: seq<Event>) {
    events != [] ==>
      && Forward(s, events[..|events| - 1])
      && Run(s, events[..|events| - 1]).clock <= events[|events| - 1].now
  }

  /** The open winners' claims are within the tokens left. */
  ghost predicate ClaimsFit(s: Launch)
    requires s.lottery.Some?
  {
    s.supply + Winners(s) <= s.data.numberOfTokens
  }

  /** Each rewrite of the run leaves the claims within the tokens left. */
  ghost predicate RewritesFit(s: Launch, events: seq<Event>) {
    events != [] ==>
      && RewritesFit(s, events[..|events| - 1])
      && (events[|events| - 1].ix.UpdateBitmap? ==> Run(s, events).lottery.Some? && ClaimsFit(Run(s, events)))
  }

  /** At some point of the run, tokens can be minted past the number on sale without another rewrite. */
  ghost predicate CanOversellAlong(s: Launch, events: seq<Event>) {
    exists n: nat :: n <= |events| && CanOversell(Run(s, events[..n]))
  }

  // ---------------------------------------------------------------------------
  // Steps

  lemma RewriteStep(s: Launch, e: Event)
    requires Late(s) && s.clock <= e.now && e.ix.UpdateBitmap?
    ensures var r := Step(s, e);
      Late(r) && r.data == s.data && r.supply == s.supply
  {
    ClockKeepsLate(s, e.now);
    var p := s.(clock := e.now);
    if Apply(p, e).Ok? {
      RewriteKeepsLate(p, e.ix.index, e.ix.strip);
    }
  }

  lemma AnyStepLate(s: Launch, e: Event)
    requires Late(s) && s.clock <= e.now
    ensures Late(Step(s, e)) && Step(s, e).data == s.data
  {
    if e.ix.UpdateBitmap? {
      RewriteStep(s, e);
    } else {
      LateStep(s, e);
    }
  }

  lemma StepKeepsFit(s: Launch, e: Event)
    requires Late(s) && s.clock <= e.now && ClaimsFit(s)
    requires e.ix.UpdateBitmap? ==> Step(s, e).lottery.Some? && ClaimsFit(Step(s, e))
    ensures Late(Step(s, e)) && ClaimsFit(Step(s, e))
  {
    AnyStepLate(s, e);
    if !e.ix.UpdateBitmap? {
      LateStep(s, e);
      WeightsAreOpen(s);
    }
  }

  // ---------------------------------------------------------------------------
  // Runs

  lemma {:induction false} RunStaysLate(s: Launch, events: seq<Event>)
    requires Late(s) && Forward(s, events)
    ensures Late(Run(s, events)) && Run(s, events).data == s.data
    decreases |events|
  {
    if events != [] {
      var last := |events| - 1;
      RunStaysLate(s, events[..last]);
      AnyStepLate(Run(s, events[..last]), events[last]);
    }
  }

  /** With any number of rewrites that leave the claims within the tokens left, they stay there. */
  lemma {:induction false} RunKeepsFit(s: Launch, events: seq<Event>)
    requires Late(s) && ClaimsFit(s) && Forward(s, events) && RewritesFit(s, events)
    ensures Late(Run(s, events)) && ClaimsFit(Run(s, events))
    decreases |events|
  {
    if events != [] {
      var last := |events| - 1;
      RunKeepsFit(s, events[..last]);
      StepKeepsFit(Run(s, events[..last]), events[last]);
    }
  }

  lemma {:induction false} Prefix(s: Launch, events: seq<Event>, n: nat)
    requires n <= |events| && Forward(s, events) && RewritesFit(s, events)
    ensures Forward(s, events[..n]) && RewritesFit(s, events[..n])
    decreases |events|
  {
    if n < |events| {
      var init := events[..|events| - 1];
      Prefix(s, init, n);
      assert init[..n] == events[..n];
    } else {
      assert events[..n] == events;
    }
  }

  lemma OversellsLater(s: Launch, init: seq<Event>, events: seq<Event>)
    requires |init| <= |events| && init == events[..|init|] && CanOversellAlong(s, init)
    ensures CanOversellAlong(s, events)
  {
    var n: nat :| n <= |init| && CanOversell(Run(s, init[..n]));
    assert init[..n] == events[..n];
  }

  lemma OversellsNow(s: Launch, events: seq<Event>)
    requires CanOversell(Run(s, events))
    ensures CanOversellAlong(s, events)
  {
    assert events[..|events|] == events;
  }

  /** The first rewrite that does not fit lets the supply pass the tokens. */
  lemma {:induction false} UnfitOversells(s: Launch, events: seq<Event>)
    requires Late(s) && ClaimsFit(s) && Forward(s, events) && !RewritesFit(s, events)
    requires s.data.numberOfTokens < U64_MAX
    ensures CanOversellAlong(s, events)
    decreases |events|
  {
    var last := |events| - 1;
    var init := events[..last];
    if RewritesFit(s, init) {
      RunKeepsFit(s, init);
      RunStaysLate(s, events);
      RewriteStep(Run(s, init), events[last]);
      CanOversellIff(Run(s, events));
      OversellsNow(s, events);
    } else {
      UnfitOversells(s, init);
      OversellsLater(s, init, events);
    }
  }

  /**
   From a state of phase three whose claims fit, a run with any number of
   rewrites can at some point mint more tokens than there are exactly when one
   of its rewrites leaves claims that do not fit.
   */
  lemma RewritesOversellIff(s: Launch, events: seq<Event>)
    requires Late(s) && ClaimsFit(s) && Forward(s, events)
    ensures CanOversellAlong(s, events) <==> !RewritesFit(s, events) && s.data.numberOfTokens < U64_MAX
  {
    if !RewritesFit(s, events) && s.data.numberOfTokens < U64_MAX {
      UnfitOversells(s, events);
    } else if CanOversellAlong(s, events) {
      var n: nat :| n <= |events| && CanOversell(Run(s, events[..n]));
      ForwardPrefix(s, events, n);
      RunStaysLate(s, events[..n]);
      var r := Run(s, events[..n]);
      if RewritesFit(s, events) {
        Prefix(s, events, n);
        RunKeepsFit(s, events[..n]);
      }
      CanOversellIff(r);
      assert false;
    }
  }

  lemma {:induction false} ForwardPrefix(s: Launch, events: seq<Event>, n: nat)
    requires n <= |events| && Forward(s, events)
    ensures Forward(s, events[..n])
    decreases |events|
  {
    if n < |events| {
      var init := events[..|events| - 1];
      ForwardPrefix(s, init, n);
      assert init[..n] == events[..n];
    } else {
      assert events[..n] == events;
    }
  }

  /**
   So for every launch that has reached phase three the supply stays within the
   tokens on sale over any continuation whose rewrites leave the claims within
   the tokens left, and a continuation with another rewrite can be made to pass
   them.
   */
  lemma SupplyBoundIff(data: LaunchData, start: i64, events: seq<Event>, more: seq<Event>)
    requires LaunchRun(data, start, events) && Reached(data, start, events).phaseThreeStarted
    requires Forward(Reached(data, start, events), more)
    ensures CanOversellAlong(Reached(data, start, events), more) <==>
            !RewritesFit(Reached(data, start, events), more) &&
            Reached(data, start, events).data.numberOfTokens < U64_MAX
    ensures RewritesFit(Reached(data, start, events), more) ==>
              Run(Reached(data, start, events), more).supply <= Reached(data, start, events).data.numberOfTokens
  {
    var s := Reached(data, start, events);
    ReachedLate(data, start, events);
    WinnersWithinSupply(s);
    RewritesOversellIff(s, more);
    RunStaysLate(s, more);
    if RewritesFit(s, more) {
      RunKeepsFit(s, more);
    }
  }
}
