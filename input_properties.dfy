/** Properties of the input engine: what an evaluation dispatches, when the
    debounced level commits, the consuming reads, the button classifier and
    the subscriber table. */
module InputProperties {
  import opened DigitalCommon
  import opened Time
  import opened InputEngine

  // ---------------------------------------------------------------------------
  // Dispatch scans
  // ---------------------------------------------------------------------------

  /** Calls are made in strictly increasing slot order, so no slot is called
      twice. */
  predicate SlotsIncreasing(calls: seq<Notify>)
  {
    forall a, b :: 0 <= a < b < |calls| ==> calls[a].slot < calls[b].slot
  }

  /** One slot's part of an edge scan: at most one call, made exactly when
      the slot asked for this edge. */
  lemma EdgeCallExact(slot: nat, d: Descriptor, level: bool, debounced: bool)
    ensures |EdgeCall(slot, d, level, debounced)| <= 1
    ensures forall n :: n in EdgeCall(slot, d, level, debounced) <==>
              n.slot == slot && WantsEdge(d, level, debounced) && n.event == EdgeEvent(level, debounced)
  {
  }

  /** Appending calls for a later slot keeps the slot order increasing. */
  lemma SlotsIncreasingAppend(before: seq<Notify>, last: seq<Notify>, k: nat)
    requires SlotsIncreasing(before) && |last| <= 1
    requires forall n :: n in before ==> n.slot < k
    requires forall n :: n in last ==> n.slot == k
    ensures SlotsIncreasing(before + last)
  {
    var calls := before + last;
    forall a, b | 0 <= a < b < |calls|
      ensures calls[a].slot < calls[b].slot
    {
      if b >= |before| {
        assert calls[b] == last[b - |before|] && calls[b] in last;
        assert calls[a] == before[a] && before[a] in before;
      } else {
        assert calls[a] == before[a] && calls[b] == before[b];
      }
    }
  }

  /** An edge scan calls exactly the occupied slots that asked for this edge,
      each once, with the edge's event, in increasing slot order. */
  lemma {:induction false} EdgeCallsExact(descs: seq<Descriptor>, level: bool, debounced: bool)
    ensures forall n :: n in EdgeCalls(descs, level, debounced) <==>
              n.slot < |descs| && WantsEdge(descs[n.slot], level, debounced) && n.event == EdgeEvent(level, debounced)
    ensures SlotsIncreasing(EdgeCalls(descs, level, debounced))
    decreases |descs|
  {
    if descs != [] {
      var k := |descs| - 1;
      var prefix := descs[..k];
      EdgeCallsExact(prefix, level, debounced);
      assert forall i :: 0 <= i < k ==> prefix[i] == descs[i];
      var before := EdgeCalls(prefix, level, debounced);
      var last := EdgeCall(k, descs[k], level, debounced);
      EdgeCallExact(k, descs[k], level, debounced);
      assert EdgeCalls(descs, level, debounced) == before + last;
      SlotsIncreasingAppend(before, last, k);
    }
  }

  /** Every call of a duration scan carries a duration event. */
  lemma {:induction false} DurationCallsAreDurationEvents(descs: seq<Descriptor>, level: bool, fired: bool, held: U64)
    ensures forall n :: n in DurationCalls(descs, level, fired, held).calls ==>
              n.event == ActiveDuration || n.event == InactiveDuration
    decreases |descs|
  {
    if descs != [] {
      DurationCallsAreDurationEvents(descs[..|descs| - 1], level, fired, held);
    }
  }

  /** The "called for duration" flag leaves a scan as it entered it, and a
      scan entered with the flag clear calls nobody. */
  lemma {:induction false} DurationScanNeedsFlag(descs: seq<Descriptor>, level: bool, fired: bool, held: U64)
    ensures DurationCalls(descs, level, fired, held).fired == fired
    ensures !fired ==> DurationCalls(descs, level, fired, held).calls == []
    decreases |descs|
  {
    if descs != [] {
      DurationScanNeedsFlag(descs[..|descs| - 1], level, fired, held);
    }
  }

  // ---------------------------------------------------------------------------
  // One evaluation
  // ---------------------------------------------------------------------------

  /** A raw edge: the new raw level is recorded with its time, the raw
      changed flag is raised and the duration flag cleared; the debounced
      view is left alone, and the subscribers called are exactly those that
      asked for this raw edge, once each, in slot order. */
  lemma RawEdgeStep(s: InputState, sample: bool, now: U64)
    requires sample != s.prevState
    ensures var h := Step(s, sample, now);
            h.next.prevState == sample && h.next.tlStateChange == now && h.next.tlHandling == now &&
            h.next.isStateChanged && !h.next.isSubsCalledForDuration &&
            h.next.prevStateDebounced == s.prevStateDebounced &&
            h.next.isStateChangedDebounced == s.isStateChangedDebounced &&
            h.next.isStateChangedDebouncedButton == s.isStateChangedDebouncedButton
    ensures var calls := Step(s, sample, now).calls;
            (forall n :: n in calls <==>
              n.slot < |s.descriptors| && WantsEdge(s.descriptors[n.slot], sample, false) &&
              n.event == EdgeEvent(sample, false)) &&
            SlotsIncreasing(calls)
  {
    EdgeCallsExact(s.descriptors, sample, false);
    assert Step(s, sample, now).calls == EdgeCalls(s.descriptors, sample, false);
  }

  /** Every evaluation stamps the handling time and leaves the configuration
      and the subscriber table alone. */
  lemma StepFrame(s: InputState, sample: bool, now: U64)
    ensures var t := Step(s, sample, now).next;
            t.tlHandling == now && t.descriptors == s.descriptors && t.debounceMs == s.debounceMs &&
            t.clumpMs == s.clumpMs && t.activeLevel == s.activeLevel && t.prevState == sample
  {
  }

  /** The debounced level changes exactly on an evaluation without a raw edge
      where the raw level has been held for the debounce window and differs
      from the debounced level; it then equals the raw level and both
      debounced changed flags are raised, otherwise those flags are kept. */
  lemma DebounceCommit(s: InputState, sample: bool, now: U64)
    ensures var t := Step(s, sample, now).next;
            var commit := sample == s.prevState && Elapsed(now, s.tlStateChange) >= s.debounceMs &&
                          s.prevStateDebounced != s.prevState;
            (t.prevStateDebounced != s.prevStateDebounced <==> commit) &&
            (commit ==> t.prevStateDebounced == t.prevState && t.isStateChangedDebounced &&
                        t.isStateChangedDebouncedButton) &&
            (!commit ==> t.isStateChangedDebounced == s.isStateChangedDebounced &&
                         t.isStateChangedDebouncedButton == s.isStateChangedDebouncedButton)
  {
  }

  /** On a committing evaluation the debounced subscribers are called exactly
      as an edge scan to the new level dictates, before any duration call. */
  lemma DebouncedDispatch(s: InputState, sample: bool, now: U64)
    requires sample == s.prevState && Elapsed(now, s.tlStateChange) >= s.debounceMs
    requires s.prevStateDebounced != s.prevState
    ensures var calls := Step(s, sample, now).calls;
            var edge := EdgeCalls(s.descriptors, sample, true);
            calls[..|edge|] == edge &&
            forall n :: n in edge <==>
              n.slot < |s.descriptors| && WantsEdge(s.descriptors[n.slot], sample, true) &&
              n.event == EdgeEvent(sample, true)
  {
    EdgeCallsExact(s.descriptors, sample, true);
  }

  /** A second evaluation in the same millisecond changes nothing and calls
      nobody, whatever the pin reads. */
  lemma SameMillisecondIsNoOp(s: InputState, first: bool, second: bool, now: U64)
    ensures var h := HandleIfNeeded(s, first, now);
            HandleIfNeeded(h.next, second, now) == Handled(h.next, [])
    ensures HandleIfNeeded(s, second, s.tlHandling) == Handled(s, [])
  {
  }

  /** After a catch-up the record is stamped with the current millisecond. */
  lemma StampedAfterCatchUp(s: InputState, sample: bool, now: U64)
    ensures HandleIfNeeded(s, sample, now).next.tlHandling == now
  {
    if s.tlHandling != now {
      StepFrame(s, sample, now);
    }
  }

  /** An evaluation without a raw edge keeps the raw level, its timestamp and
      the raw changed flag, and keeps the debounced flags unless it commits. */
  lemma SteadyStep(s: InputState, now: U64)
    ensures var t := Step(s, s.prevState, now).next;
            t.prevState == s.prevState && t.tlStateChange == s.tlStateChange &&
            t.isStateChanged == s.isStateChanged
    ensures s.prevStateDebounced == s.prevState ==>
              Step(s, s.prevState, now).next.isStateChangedDebounced == s.isStateChangedDebounced
  {
    var held := Elapsed(now, s.tlStateChange);
    var checked := DebounceCheck(s.(tlHandling := now), held);
    assert checked.next.isStateChanged == s.isStateChanged;
  }

  // ---------------------------------------------------------------------------
  // Traces
  // ---------------------------------------------------------------------------

  /** A raw sample and the millisecond it was taken at. */
  datatype Sample = Sample(level: bool, now: U64)

  /** Evaluate the record on each sample in turn, collecting the calls. */
  function Feed(s: InputState, trace: seq<Sample>): Handled
    decreases |trace|
  {
    if trace == [] then Handled(s, [])
    else
      var h := Step(s, trace[0].level, trace[0].now);
      var rest := Feed(h.next, trace[1..]);
      Handled(rest.next, h.calls + rest.calls)
  }

  /** From a record whose duration flag is clear (as init leaves it), no
      sequence of evaluations ever dispatches a duration event, and the flag
      stays clear: the only assignments that set it are guarded by it. */
  lemma {:induction false} DurationEventsNeverFire(s: InputState, trace: seq<Sample>)
    requires !s.isSubsCalledForDuration
    ensures !Feed(s, trace).next.isSubsCalledForDuration
    ensures forall n :: n in Feed(s, trace).calls ==> n.event != ActiveDuration && n.event != InactiveDuration
    decreases |trace|
  {
    if trace != [] {
      var x := trace[0];
      var h := Step(s, x.level, x.now);
      if x.level != s.prevState {
        EdgeCallsExact(s.descriptors, x.level, false);
      } else {
        EdgeCallsExact(s.descriptors, s.prevState, true);
        DurationScanNeedsFlag(s.descriptors, s.prevState, false, Elapsed(x.now, s.tlStateChange));
      }
      DurationEventsNeverFire(h.next, trace[1..]);
    }
  }

  /** init leaves the duration flag clear, so a freshly initialised input
      never dispatches a duration event. */
  lemma InitialNeverFiresDuration(activeLevel: Level, subscribers: nat, trace: seq<Sample>)
    ensures forall n :: n in Feed(Initial(activeLevel, subscribers), trace).calls ==>
              n.event != ActiveDuration && n.event != InactiveDuration
  {
    DurationEventsNeverFire(Initial(activeLevel, subscribers), trace);
  }

  /** Every sample that repeats the current raw level arrives less than the
      debounce window after the latest raw edge: the line keeps bouncing. */
  predicate Bouncing(s: InputState, trace: seq<Sample>)
    decreases |trace|
  {
    trace == [] ||
    ((trace[0].level == s.prevState ==> Elapsed(trace[0].now, s.tlStateChange) < s.debounceMs) &&
     Bouncing(Step(s, trace[0].level, trace[0].now).next, trace[1..]))
  }

  /** Bounces shorter than the window never move the debounced level, never
      raise its changed flags and never call a debounced subscriber. */
  lemma {:induction false} ShortBouncesNeverCommit(s: InputState, trace: seq<Sample>)
    requires Bouncing(s, trace)
    ensures var t := Feed(s, trace).next;
            t.prevStateDebounced == s.prevStateDebounced &&
            t.isStateChangedDebounced == s.isStateChangedDebounced &&
            t.isStateChangedDebouncedButton == s.isStateChangedDebouncedButton
    ensures forall n :: n in Feed(s, trace).calls ==>
              n.event != ChangeStateToActiveDebounced && n.event != ChangeStateToInactiveDebounced
    decreases |trace|
  {
    if trace != [] {
      var x := trace[0];
      var h := Step(s, x.level, x.now);
      if x.level != s.prevState {
        EdgeCallsExact(s.descriptors, x.level, false);
      } else {
        DurationCallsAreDurationEvents(s.descriptors, s.prevState, s.isSubsCalledForDuration,
                                       Elapsed(x.now, s.tlStateChange));
      }
      ShortBouncesNeverCommit(h.next, trace[1..]);
    }
  }

  /** With a 100 ms window, raw edges at 0, 50 and 60 ms each raise the raw
      changed flag and call the raw subscribers, and the debounced level
      (low before) turns high on an evaluation at t exactly when t >= 160.
      That the polls between the edges commit nothing either is the general
      ShortBouncesNeverCommit. */
  lemma BounceScenario(s: InputState, t: U64)
    requires !s.prevState && !s.prevStateDebounced && s.debounceMs == 100
    requires 60 <= t
    ensures var h := Feed(s, [Sample(true, 0), Sample(false, 50), Sample(true, 60)]);
            h.next.prevState && h.next.isStateChanged && h.next.tlStateChange == 60 &&
            !h.next.prevStateDebounced &&
            h.calls == EdgeCalls(s.descriptors, true, false) + EdgeCalls(s.descriptors, false, false) +
                       EdgeCalls(s.descriptors, true, false) &&
            (Step(h.next, true, t).next.prevStateDebounced <==> 160 <= t)
  {
    var s1 := Step(s, true, 0).next;
    var s2 := Step(s1, false, 50).next;
    var s3 := Step(s2, true, 60).next;
    assert Feed(s3, []) == Handled(s3, []);
    assert [Sample(true, 0), Sample(false, 50), Sample(true, 60)][1..] == [Sample(false, 50), Sample(true, 60)];
    assert [Sample(false, 50), Sample(true, 60)][1..] == [Sample(true, 60)];
    assert [Sample(true, 60)][1..] == [];
  }

  // ---------------------------------------------------------------------------
  // Queries
  // ---------------------------------------------------------------------------

  /** A query in a new millisecond evaluates first, so it reports the sample
      just taken, and on a raw edge a held time of zero and the debounced
      level from before the edge; a debounced query once the raw level has
      been held for the window reports that level; a query in the
      millisecond already evaluated reports the record as it stands. */
  lemma QueriesReportCaughtUpRecord(s: InputState, sample: bool, now: U64)
    ensures s.tlHandling != now ==> ReadState(s, sample, now).value == sample
    ensures s.tlHandling != now && sample != s.prevState ==> ReadDuration(s, sample, now).value == (sample, 0)
    ensures s.tlHandling == now ==>
              ReadState(s, sample, now).value == s.prevState &&
              ReadDebounced(s, sample, now).value == s.prevStateDebounced &&
              ReadDuration(s, sample, now).value == (s.prevState, Elapsed(now, s.tlStateChange))
    ensures s.tlHandling != now && sample != s.prevState ==>
              ReadDebounced(s, sample, now).value == s.prevStateDebounced
    ensures s.tlHandling != now && sample == s.prevState && Elapsed(now, s.tlStateChange) >= s.debounceMs ==>
              ReadDebounced(s, sample, now).value == sample
  {
    if s.tlHandling != now {
      StepFrame(s, sample, now);
      DebounceCommit(s, sample, now);
    }
  }

  /** is_state_changed consumes its flag: a second call in the same
      millisecond, or with the raw level unchanged, reports no change. The
      separate button flag is not touched. */
  lemma ChangedReadIsConsumed(s: InputState, sample: bool, now: U64, sample2: bool, now2: U64)
    requires var first := ReadChanged(s, sample, now);
             now2 == now || sample2 == first.next.prevState
    ensures var first := ReadChanged(s, sample, now);
            !ReadChanged(first.next, sample2, now2).value.0 &&
            first.next.isStateChangedDebouncedButton ==
              HandleIfNeeded(s, sample, now).next.isStateChangedDebouncedButton
  {
    var t := ReadChanged(s, sample, now).next;
    StampedAfterCatchUp(s, sample, now);
    if t.tlHandling != now2 {
      SteadyStep(t, now2);
    }
  }

  /** is_state_changed_debounced consumes its flag: a second call reports a
      change exactly when its own catch-up committed a new debounced level, so
      raw edges and a level still pending leave the flag down. The separate
      button flag is not touched. */
  lemma DebouncedChangedReadIsConsumed(s: InputState, sample: bool, now: U64, sample2: bool, now2: U64)
    ensures var t := ReadChangedDebounced(s, sample, now).next;
            ReadChangedDebounced(t, sample2, now2).value.0 <==>
              HandleIfNeeded(t, sample2, now2).next.prevStateDebounced != t.prevStateDebounced
    ensures var first := ReadChangedDebounced(s, sample, now);
            first.next.isStateChangedDebouncedButton ==
              HandleIfNeeded(s, sample, now).next.isStateChangedDebouncedButton
  {
    var t := ReadChangedDebounced(s, sample, now).next;
    if t.tlHandling != now2 {
      DebounceCommit(t, sample2, now2);
    }
  }

  /** The button classifier: PUSHED, consuming the button flag, exactly when
      that flag is set and the debounced level is active; otherwise CLUMPED
      exactly when the raw level is active and has been held for the clump
      threshold; otherwise NONE. Only PUSHED changes the record. */
  lemma ButtonClassifier(s: InputState, sample: bool, now: U64)
    ensures var t := HandleIfNeeded(s, sample, now).next;
            var r := ReadButton(s, sample, now);
            var pushed := t.isStateChangedDebouncedButton && t.prevStateDebounced;
            (r.value == Pushed <==> pushed) &&
            (r.value == Clumped <==> !pushed && t.prevState && Elapsed(now, t.tlStateChange) >= t.clumpMs) &&
            (r.value == Pushed ==> r.next == t.(isStateChangedDebouncedButton := false)) &&
            (r.value != Pushed ==> r.next == t)
  {
  }

  /** A push is reported once per debounced rising edge: a second read in the
      same millisecond is not PUSHED. */
  lemma PushReportedOnce(s: InputState, sample: bool, now: U64, sample2: bool)
    requires ReadButton(s, sample, now).value == Pushed
    ensures ReadButton(ReadButton(s, sample, now).next, sample2, now).value != Pushed
  {
  }

  /** With the clump threshold init leaves (0), the classifier answers CLUMPED
      whenever the raw level is active and no push is pending. */
  lemma ZeroClumpThreshold(s: InputState, sample: bool, now: U64)
    requires s.clumpMs == 0
    ensures var t := HandleIfNeeded(s, sample, now).next;
            ReadButton(s, sample, now).value == Clumped <==>
              t.prevState && !(t.isStateChangedDebouncedButton && t.prevStateDebounced)
  {
  }

  // ---------------------------------------------------------------------------
  // Subscriber table
  // ---------------------------------------------------------------------------

  /** subscribe writes callback, conditions and argument into the first slot
      that is free or holds the same callback and touches no other slot; when
      every slot holds another callback it answers ER_NO_MEM and changes
      nothing. */
  lemma SubscribeOutcome(descs: seq<Descriptor>, conditions: Conditions, cb: Option<Callback>, arg: Arg)
    ensures var r := Subscribe(descs, conditions, cb, arg);
            (r.status == ErNoMem <==> forall j :: 0 <= j < |descs| ==> descs[j].callback.Some? && descs[j].callback != cb) &&
            (r.status == Ok <==> exists j :: 0 <= j < |descs| && Fits(descs[j], cb)) &&
            (r.status == Ok || r.status == ErNoMem) &&
            (r.status == ErNoMem ==> r.descriptors == descs) &&
            (r.status == Ok ==>
               exists i :: 0 <= i < |descs| && Fits(descs[i], cb) &&
                 (forall j :: 0 <= j < i ==> !Fits(descs[j], cb)) &&
                 r.descriptors == descs[i := Descriptor(cb, conditions, arg)])
  {
    var first := FirstFitFrom(descs, cb, 0);
    if first.Some? {
      var i := first.value;
      assert !(descs[i].callback.Some? && descs[i].callback != cb);
    }
  }

  /** subscribe keeps the occupied slots a prefix and each callback in at most
      one slot. */
  lemma SubscribeKeepsTableShape(descs: seq<Descriptor>, conditions: Conditions, cb: Option<Callback>, arg: Arg)
    requires OccupiedPrefix(descs) && UniqueCallbacks(descs)
    ensures OccupiedPrefix(Subscribe(descs, conditions, cb, arg).descriptors)
    ensures UniqueCallbacks(Subscribe(descs, conditions, cb, arg).descriptors)
  {
    var first := FirstFitFrom(descs, cb, 0);
    if first.Some? {
      var i := first.value;
      var after := descs[i := Descriptor(cb, conditions, arg)];
      if descs[i].callback.None? {
        assert forall j :: i < j < |descs| ==> descs[j].callback.None?;
      }
      forall a, b | 0 <= a < b < |after| && after[b].callback.Some?
        ensures after[a].callback.Some?
      {
        if a != i && b == i {
          assert !Fits(descs[a], cb);
        }
      }
      forall a, b | 0 <= a < b < |after| && after[a].callback.Some?
        ensures after[a].callback != after[b].callback
      {
        if a == i {
          assert descs[b].callback.None? || descs[b].callback != cb;
        } else if b == i {
          assert !Fits(descs[a], cb);
        }
      }
    }
  }

  /** Subscribing a callback that already holds a slot rewrites that slot in
      place and succeeds. */
  lemma ResubscribeOverwritesInPlace(descs: seq<Descriptor>, k: nat, conditions: Conditions, arg: Arg)
    requires OccupiedPrefix(descs) && UniqueCallbacks(descs)
    requires k < |descs| && descs[k].callback.Some?
    ensures var r := Subscribe(descs, conditions, descs[k].callback, arg);
            r.status == Ok && r.descriptors == descs[k := Descriptor(descs[k].callback, conditions, arg)]
  {
    var cb := descs[k].callback;
    var first := FirstFitFrom(descs, cb, 0);
    assert Fits(descs[k], cb);
    assert first.value == k;
  }
}
