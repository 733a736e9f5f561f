/**
  operator/metrics_collector.go and scalingHint of operator/autoscaler.go: the stored CPU
  samples, how they are pruned, and the hint computed from them. Times are readings of a
  monotone clock in seconds.
*/
module Metrics {
  import opened Base
  import opened Rounding
  import opened Sequences
  import opened Autoscaler

  datatype Sample = Sample(time: int, value: int)

  // ----- scalingHint -----

  /** How many samples cover a threshold duration at one sample per interval. */
  function RequiredSamples(threshold: int, interval: int): int
    requires interval != 0
  {
    Ceil(threshold as real / interval as real)
  }

  lemma RequiredSamplesMeaning(threshold: int, interval: int)
    requires interval > 0 && threshold >= 0
    ensures RequiredSamples(threshold, interval) == CeilDiv(threshold, interval) >= 0
    ensures RequiredSamples(threshold, interval) == 0 <==> threshold == 0
  {
    CeilQuotient(threshold, interval);
    CeilDivLeast(threshold, interval, 0);
    CeilDivLeast(threshold, interval, -1);
  }

  predicate LastBelow(samples: seq<Sample>, count: int, bound: int)
    requires 0 <= count <= |samples|
  {
    forall i :: |samples| - count <= i < |samples| ==> samples[i].value < bound
  }

  predicate LastAbove(samples: seq<Sample>, count: int, bound: int)
    requires 0 <= count <= |samples|
  {
    forall i :: |samples| - count <= i < |samples| ==> samples[i].value > bound
  }

  /** The cool-down since the last scaling in a direction is over. */
  predicate CooledDown(last: Option<int>, now: int, cooldown: int) {
    last.None? || last.value < now - cooldown
  }

  predicate DownRequired(c: Settings, interval: int, samples: seq<Sample>)
    requires interval > 0 && c.scaleDownThreshold >= 0
  {
    RequiredSamplesMeaning(c.scaleDownThreshold, interval);
    var count := RequiredSamples(c.scaleDownThreshold, interval);
    |samples| >= count && LastBelow(samples, count, c.scaleDownCPUBoundary)
  }

  predicate UpRequired(c: Settings, interval: int, samples: seq<Sample>)
    requires interval > 0 && c.scaleUpThreshold >= 0
  {
    RequiredSamplesMeaning(c.scaleUpThreshold, interval);
    var count := RequiredSamples(c.scaleUpThreshold, interval);
    |samples| >= count && LastAbove(samples, count, c.scaleUpCPUBoundary)
  }

  /** The clock is read once for each direction. */
  datatype HintInput = HintInput(lastUp: Option<int>, lastDown: Option<int>, nowDown: int, nowUp: int)

  function Hint(c: Settings, interval: int, metrics: Option<seq<Sample>>, h: HintInput): Direction
    requires interval > 0 && CrdMinima(c)
  {
    if metrics.None? then NONE
    else if DownRequired(c, interval, metrics.value) && CooledDown(h.lastDown, h.nowDown, c.scaleDownCooldown) then DOWN
    else if UpRequired(c, interval, metrics.value) && CooledDown(h.lastUp, h.nowUp, c.scaleUpCooldown) then UP
    else NONE
  }

  method ScalingHint(c: Settings, interval: int, metrics: Option<seq<Sample>>, h: HintInput)
    returns (direction: Direction)
    requires interval > 0 && CrdMinima(c)
    ensures direction == Hint(c, interval, metrics, h)
  {
    if metrics.None? {
      return NONE;
    }
    var samples := metrics.value;
    RequiredSamplesMeaning(c.scaleDownThreshold, interval);
    RequiredSamplesMeaning(c.scaleUpThreshold, interval);
    var down := RequiredSamples(c.scaleDownThreshold, interval);
    if |samples| >= down {
      var required := true;
      for i := |samples| - down to |samples|
        invariant required <==> forall k :: |samples| - down <= k < i ==> samples[k].value < c.scaleDownCPUBoundary
      {
        if samples[i].value >= c.scaleDownCPUBoundary {
          required := false;
          break;
        }
      }
      if required && (h.lastDown.None? || h.lastDown.value < h.nowDown - c.scaleDownCooldown) {
        return DOWN;
      }
    }
    var up := RequiredSamples(c.scaleUpThreshold, interval);
    if |samples| >= up {
      var required := true;
      for i := |samples| - up to |samples|
        invariant required <==> forall k :: |samples| - up <= k < i ==> samples[k].value > c.scaleUpCPUBoundary
      {
        if samples[i].value <= c.scaleUpCPUBoundary {
          required := false;
          break;
        }
      }
      if required && (h.lastUp.None? || h.lastUp.value < h.nowUp - c.scaleUpCooldown) {
        return UP;
      }
    }
    return NONE;
  }

  // ----- when each hint comes, in times and samples -----

  /** Samples at one per interval reach back over the whole threshold. */
  ghost predicate ReachesBack(samples: seq<Sample>, interval: int, threshold: int) {
    |samples| * interval >= threshold
  }

  /** The sample at i was taken less than the threshold before the last one. */
  ghost predicate InWindow(samples: seq<Sample>, interval: int, threshold: int, i: int) {
    0 <= i < |samples| && (|samples| - 1 - i) * interval < threshold
  }

  /** More than the cool-down has passed since the stamp, if there is one. */
  ghost predicate LongAgo(stamp: Option<int>, now: int, cooldown: int) {
    match stamp
    case None => true
    case Some(time) => now - time > cooldown
  }

  ghost predicate DownDue(c: Settings, interval: int, metrics: Option<seq<Sample>>, h: HintInput) {
    && metrics.Some? && ReachesBack(metrics.value, interval, c.scaleDownThreshold)
    && (forall i :: InWindow(metrics.value, interval, c.scaleDownThreshold, i) ==>
          metrics.value[i].value < c.scaleDownCPUBoundary)
    && LongAgo(h.lastDown, h.nowDown, c.scaleDownCooldown)
  }

  ghost predicate UpDue(c: Settings, interval: int, metrics: Option<seq<Sample>>, h: HintInput) {
    && metrics.Some? && ReachesBack(metrics.value, interval, c.scaleUpThreshold)
    && (forall i :: InWindow(metrics.value, interval, c.scaleUpThreshold, i) ==>
          metrics.value[i].value > c.scaleUpCPUBoundary)
    && LongAgo(h.lastUp, h.nowUp, c.scaleUpCooldown)
  }

  /** The last samples that cover the threshold are those in its window. */
  lemma WindowIsLastSamples(samples: seq<Sample>, interval: int, threshold: int)
    requires interval > 0 && threshold >= 0
    ensures RequiredSamples(threshold, interval) >= 0
    ensures ReachesBack(samples, interval, threshold) <==> |samples| >= RequiredSamples(threshold, interval)
    ensures forall i :: 0 <= i < |samples| ==>
              (InWindow(samples, interval, threshold, i) <==> i >= |samples| - RequiredSamples(threshold, interval))
  {
    RequiredSamplesMeaning(threshold, interval);
    var count := CeilDiv(threshold, interval);
    CeilDivLeast(threshold, interval, |samples|);
    hide CeilDiv, RequiredSamples;
    forall i | 0 <= i < |samples| ensures InWindow(samples, interval, threshold, i) <==> i >= |samples| - count {
      CeilDivLeast(threshold, interval, |samples| - 1 - i);
    }
  }

  /** Main result. DOWN comes exactly when it is due, and UP exactly when it is due and DOWN is not. */
  lemma HintComesExactly(c: Settings, interval: int, metrics: Option<seq<Sample>>, h: HintInput)
    requires interval > 0 && CrdMinima(c)
    ensures Hint(c, interval, metrics, h) == DOWN <==> DownDue(c, interval, metrics, h)
    ensures Hint(c, interval, metrics, h) == UP
       <==> UpDue(c, interval, metrics, h) && !DownDue(c, interval, metrics, h)
  {
    if metrics.Some? {
      WindowIsLastSamples(metrics.value, interval, c.scaleDownThreshold);
      WindowIsLastSamples(metrics.value, interval, c.scaleUpThreshold);
      hide ReachesBack, InWindow, RequiredSamples;
    }
  }

  // ----- a pruned history decides like the full one -----

  ghost predicate IsSuffix(part: seq<Sample>, whole: seq<Sample>) {
    |part| <= |whole| && part == whole[|whole| - |part|..]
  }

  lemma SuffixRequirements(c: Settings, interval: int, part: seq<Sample>, whole: seq<Sample>)
    requires interval > 0 && CrdMinima(c) && IsSuffix(part, whole)
    ensures DownRequired(c, interval, part)
       <==> DownRequired(c, interval, whole) && |part| >= RequiredSamples(c.scaleDownThreshold, interval)
    ensures UpRequired(c, interval, part)
       <==> UpRequired(c, interval, whole) && |part| >= RequiredSamples(c.scaleUpThreshold, interval)
  {
    var gap := |whole| - |part|;
    assert forall i :: 0 <= i < |part| ==> part[i] == whole[gap + i];
    assert forall i :: gap <= i < |whole| ==> whole[i] == part[i - gap];
    RequiredSamplesMeaning(c.scaleDownThreshold, interval);
    RequiredSamplesMeaning(c.scaleUpThreshold, interval);
  }

  /** A CPU usage is a share of what was requested. */
  ghost predicate NonNegative(samples: seq<Sample>) {
    forall i :: 0 <= i < |samples| ==> samples[i].value >= 0
  }

  /**
    When no window of samples can ask for UP while a longer one asks for DOWN: the DOWN window is
    no longer than the UP window, which counts as at least the one sample that is always there, or
    no usage satisfies both conditions: none lies strictly between the two boundaries or, when UP
    needs no samples, none below the boundary of DOWN.
  */
  predicate HintsSeparated(c: Settings, interval: int)
    requires interval > 0
  {
    var down, up := RequiredSamples(c.scaleDownThreshold, interval), RequiredSamples(c.scaleUpThreshold, interval);
    || down <= Max(up, 1)
    || c.scaleDownCPUBoundary <= (if up == 0 then 0 else c.scaleUpCPUBoundary + 1)
  }

  /** A hint other than NONE computed from the last samples of the history is the hint of the whole history. */
  lemma PrunedHintIsFullHint(c: Settings, interval: int, part: seq<Sample>, whole: seq<Sample>, h: HintInput)
    requires interval > 0 && CrdMinima(c) && IsSuffix(part, whole) && HintsSeparated(c, interval)
    requires part != [] && NonNegative(whole)
    ensures Hint(c, interval, Some(part), h) != NONE ==>
              Hint(c, interval, Some(whole), h) == Hint(c, interval, Some(part), h)
  {
    SuffixRequirements(c, interval, part, whole);
    RequiredSamplesMeaning(c.scaleDownThreshold, interval);
    RequiredSamplesMeaning(c.scaleUpThreshold, interval);
    hide RequiredSamples;
    if UpRequired(c, interval, whole) && DownRequired(c, interval, whole)
       && RequiredSamples(c.scaleDownThreshold, interval) > Max(RequiredSamples(c.scaleUpThreshold, interval), 1) {
      BothRequired(c, interval, whole);
    }
  }

  lemma BothRequired(c: Settings, interval: int, whole: seq<Sample>)
    requires interval > 0 && CrdMinima(c) && NonNegative(whole)
    requires DownRequired(c, interval, whole) && UpRequired(c, interval, whole)
    requires RequiredSamples(c.scaleDownThreshold, interval) > Max(RequiredSamples(c.scaleUpThreshold, interval), 1)
    ensures !HintsSeparated(c, interval)
  {
    RequiredSamplesMeaning(c.scaleUpThreshold, interval);
    hide RequiredSamples;
    var last := whole[|whole| - 1];
    assert 0 <= last.value < c.scaleDownCPUBoundary;
  }

  /** Positive thresholds and a down boundary not above the up boundary are enough. */
  lemma UsualSettingsSeparateHints(c: Settings, interval: int)
    requires interval > 0 && c.scaleUpThreshold > 0 && c.scaleDownCPUBoundary <= c.scaleUpCPUBoundary
    ensures HintsSeparated(c, interval)
  {
    RequiredSamplesMeaning(c.scaleUpThreshold, interval);
  }

  /** While the pruned history still holds every sample a window needs, the hints are equal outright. */
  lemma CoveringWindowDecidesAlike(c: Settings, interval: int, part: seq<Sample>, whole: seq<Sample>, h: HintInput)
    requires interval > 0 && CrdMinima(c) && IsSuffix(part, whole)
    requires |part| == |whole|
          || (|part| >= RequiredSamples(c.scaleDownThreshold, interval)
              && |part| >= RequiredSamples(c.scaleUpThreshold, interval))
    ensures Hint(c, interval, Some(part), h) == Hint(c, interval, Some(whole), h)
  {
    SuffixRequirements(c, interval, part, whole);
  }

  // ----- storeMedian -----

  ghost predicate Chronological(samples: seq<Sample>) {
    forall i, j :: 0 <= i < j < |samples| ==> samples[i].time <= samples[j].time
  }

  /** The samples not older than a cutoff. */
  function Recent(samples: seq<Sample>, cutoff: int): seq<Sample> {
    FlatMap(samples, (m: Sample) => if m.time < cutoff then [] else [m])
  }

  lemma {:induction false} AllOld(samples: seq<Sample>, cutoff: int)
    requires forall i :: 0 <= i < |samples| ==> samples[i].time < cutoff
    ensures Recent(samples, cutoff) == []
  {
    if samples != [] {
      AllOld(samples[..|samples| - 1], cutoff);
    }
  }

  /** In chronological order the dropped samples are a prefix: what is kept is a suffix. */
  lemma {:induction false} RecentIsSuffix(samples: seq<Sample>, cutoff: int)
    requires Chronological(samples)
    ensures IsSuffix(Recent(samples, cutoff), samples)
    ensures forall i :: 0 <= i < |samples| - |Recent(samples, cutoff)| ==> samples[i].time < cutoff
    ensures forall i :: |samples| - |Recent(samples, cutoff)| <= i < |samples| ==> samples[i].time >= cutoff
  {
    if samples != [] {
      var front, last := samples[..|samples| - 1], samples[|samples| - 1];
      if last.time < cutoff {
        AllOld(samples, cutoff);
      } else {
        RecentIsSuffix(front, cutoff);
        var kept := Recent(front, cutoff);
        assert Recent(samples, cutoff) == kept + [last];
        hide FlatMap;
        assert samples == front + [last];
        assert samples[|front| - |kept|..] == front[|front| - |kept|..] + [last];
      }
    }
  }

  lemma SuffixOfSuffix(a: seq<Sample>, b: seq<Sample>, c: seq<Sample>)
    requires IsSuffix(a, b) && IsSuffix(b, c)
    ensures IsSuffix(a, c)
  {
  }

  lemma SuffixExtended(a: seq<Sample>, b: seq<Sample>, x: Sample)
    requires IsSuffix(a, b)
    ensures IsSuffix(a + [x], b + [x])
  {
    assert (b + [x])[|b| - |a|..] == b[|b| - |a|..] + [x];
  }

  lemma ChronologicalExtended(a: seq<Sample>, x: Sample)
    requires Chronological(a) && (a != [] ==> a[|a| - 1].time <= x.time)
    ensures Chronological(a + [x])
  {
  }

  lemma {:induction false} AllRecent(samples: seq<Sample>, cutoff: int)
    requires forall i :: 0 <= i < |samples| ==> samples[i].time >= cutoff
    ensures Recent(samples, cutoff) == samples
  {
    if samples != [] {
      AllRecent(samples[..|samples| - 1], cutoff);
    }
  }

  // ----- the life of a metric set -----

  /** One write that was taken: the sample, the clock when pruning, and the longer threshold then. */
  datatype Write = Write(value: int, stamp: int, now: int, threshold: int)

  function SampleOf(w: Write): Sample {
    Sample(w.stamp, w.value)
  }

  /** What a write leaves stored. */
  function Store(metrics: Option<seq<Sample>>, w: Write): seq<Sample> {
    (if metrics.None? then [] else Recent(metrics.value, w.now - w.threshold)) + [SampleOf(w)]
  }

  function StoredBy(life: seq<Write>): Option<seq<Sample>> {
    if life == [] then None else Some(Store(StoredBy(life[..|life| - 1]), life[|life| - 1]))
  }

  /** Every sample ever stored. */
  function History(life: seq<Write>): seq<Sample> {
    seq(|life|, i requires 0 <= i < |life| => SampleOf(life[i]))
  }

  /** The latest time before which samples were dropped, or that of the first sample. */
  function Cutoff(life: seq<Write>): int
    requires life != []
  {
    var last := life[|life| - 1];
    if |life| == 1 then last.stamp else Max(Cutoff(life[..|life| - 1]), last.now - last.threshold)
  }

  /** The clock does not go back. */
  ghost predicate InOrder(life: seq<Write>) {
    && (forall i :: 0 <= i < |life| ==> life[i].stamp <= life[i].now)
    && (forall i, j :: 0 <= i < j < |life| ==> life[i].stamp <= life[j].stamp)
  }

  lemma InOrderMore(life: seq<Write>, w: Write)
    requires InOrder(life) && w.stamp <= w.now && (life != [] ==> life[|life| - 1].stamp <= w.stamp)
    ensures InOrder(life + [w])
  {
  }

  lemma HistoryMore(life: seq<Write>)
    requires life != []
    ensures History(life) == History(life[..|life| - 1]) + [SampleOf(life[|life| - 1])]
  {
  }

  /** Pruning a stored suffix of the history at a cutoff and adding a sample gives a suffix again. */
  lemma PrunedAndExtended(stored: seq<Sample>, history: seq<Sample>, dropped: int, cutoff: int, x: Sample)
    requires Chronological(history) && IsSuffix(stored, history)
    requires forall i :: 0 <= i < |history| - |stored| ==> history[i].time < dropped
    ensures var kept := Recent(stored, cutoff) + [x];
            && IsSuffix(kept, history + [x])
            && forall i :: 0 <= i < |history| + 1 - |kept| ==> (history + [x])[i].time < Max(dropped, cutoff)
  {
    SuffixChronological(stored, history);
    RecentIsSuffix(stored, cutoff);
    var kept := Recent(stored, cutoff);
    SuffixOfSuffix(kept, stored, history);
    SuffixExtended(kept, history, x);
    hide FlatMap;
    var gap := |history| - |stored|;
    forall i | 0 <= i < |history| - |kept| ensures history[i].time < Max(dropped, cutoff) {
      if i >= gap {
        assert history[i] == stored[i - gap];
      }
    }
  }

  lemma SuffixChronological(part: seq<Sample>, whole: seq<Sample>)
    requires IsSuffix(part, whole) && Chronological(whole)
    ensures Chronological(part)
  {
    var gap := |whole| - |part|;
    assert forall i :: 0 <= i < |part| ==> part[i] == whole[gap + i];
  }

  /** What is stored is the end of the history, and what is gone is older than the cutoff. */
  ghost predicate EndOfHistory(life: seq<Write>, stored: seq<Sample>)
    requires life != []
  {
    && stored != [] && IsSuffix(stored, History(life))
    && forall i :: 0 <= i < |life| - |stored| ==> life[i].stamp < Cutoff(life)
  }

  lemma HistoryChronological(life: seq<Write>)
    requires InOrder(life)
    ensures Chronological(History(life))
  {
  }

  lemma {:induction false} StoredIsSuffix(life: seq<Write>)
    requires InOrder(life) && life != []
    ensures EndOfHistory(life, StoredBy(life).value)
  {
    if |life| > 1 {
      var before := life[..|life| - 1];
      StoredIsSuffix(before);
      OneMoreStored(life, StoredBy(before).value);
      hide EndOfHistory, Store;
    }
  }

  lemma OneMoreStored(life: seq<Write>, stored: seq<Sample>)
    requires InOrder(life) && |life| > 1 && EndOfHistory(life[..|life| - 1], stored)
    ensures EndOfHistory(life, Store(Some(stored), life[|life| - 1]))
  {
    var before, last := life[..|life| - 1], life[|life| - 1];
    var cutoff := last.now - last.threshold;
    HistoryChronological(before);
    HistoryMore(life);
    var history, kept := History(before), Recent(stored, cutoff) + [SampleOf(last)];
    PrunedAndExtended(stored, history, Cutoff(before), cutoff, SampleOf(last));
    forall i | 0 <= i < |life| - |kept| ensures life[i].stamp < Max(Cutoff(before), cutoff) {
      assert (history + [SampleOf(last)])[i] == SampleOf(life[i]);
    }
    hide Recent, IsSuffix, Chronological, History, StoredBy;
  }

  function LongerThreshold(c: Settings): int {
    Max(c.scaleDownThreshold, c.scaleUpThreshold)
  }

  /** The ElasticsearchMetricSet of one EDS as stored by the API server. */
  class MetricSet {
    var metrics: Option<seq<Sample>>
    /** Every write that was taken. */
    ghost var life: seq<Write>

    ghost predicate Valid()
      reads this
    {
      InOrder(life) && metrics == StoredBy(life)
    }

    constructor ()
      ensures Valid() && life == [] && metrics == None
    {
      metrics, life := None, [];
    }

    /**
      Adds a sample stamped at stamp, dropping those older than the longer threshold before
      now. Both clock readings are no earlier than any stored stamp; accepted says whether
      the API server took the write.
    */
    method StoreMedian(c: Settings, value: int, stamp: int, now: int, accepted: bool)
      requires Valid()
      requires stamp <= now && (life != [] ==> life[|life| - 1].stamp <= stamp)
      modifies this
      ensures Valid()
      ensures !accepted ==> unchanged(this)
      ensures accepted ==> life == old(life) + [Write(value, stamp, now, LongerThreshold(c))]
      ensures accepted ==> metrics == Some(
                (if old(metrics).None? then [] else Recent(old(metrics).value, now - LongerThreshold(c)))
                + [Sample(stamp, value)])
    {
      var current := Sample(stamp, value);
      var newMetrics: seq<Sample> := [];
      if metrics.Some? {
        var stored := metrics.value;
        var oldest := now - LongerThreshold(c);
        for i := 0 to |stored|
          invariant newMetrics == Recent(stored[..i], oldest)
        {
          assert stored[..i + 1][..i] == stored[..i];
          if stored[i].time < oldest {
            continue;
          }
          newMetrics := newMetrics + [stored[i]];
        }
        assert stored[..|stored|] == stored;
      }
      if accepted {
        metrics := Some(newMetrics + [current]);
        ghost var write := Write(value, stamp, now, LongerThreshold(c));
        InOrderMore(life, write);
        assert (life + [write])[..|life|] == life;
        life := life + [write];
      }
    }
  }

  // ----- what pruning does to the hint -----

  /** A hint other than NONE is computed from what is stored, but the whole history gives another. */
  ghost predicate Misled(c: Settings, interval: int, life: seq<Write>, h: HintInput)
    requires interval > 0 && CrdMinima(c)
  {
    && Hint(c, interval, StoredBy(life), h) != NONE
    && Hint(c, interval, Some(History(life)), h) != Hint(c, interval, StoredBy(life), h)
  }

  /**
    What pruning promises over the whole life of a metric set: a hint other than NONE is
    the hint of everything ever stored, and the hints agree outright while the samples the
    windows need are not older than the last cutoff.
  */
  lemma StoredHintIsHistoryHint(life: seq<Write>, c: Settings, interval: int, h: HintInput)
    requires InOrder(life) && life != [] && interval > 0 && CrdMinima(c)
    ensures HintsSeparated(c, interval) && NonNegative(History(life)) ==> !Misled(c, interval, life, h)
    ensures var down := RequiredSamples(c.scaleDownThreshold, interval);
            var up := RequiredSamples(c.scaleUpThreshold, interval);
            var need := Max(down, up);
            (0 < need <= |life| && life[|life| - need].stamp >= Cutoff(life)) ==>
              Hint(c, interval, Some(History(life)), h) == Hint(c, interval, StoredBy(life), h)
  {
    StoredIsSuffix(life);
    var stored, history := StoredBy(life).value, History(life);
    if HintsSeparated(c, interval) && NonNegative(history) {
      PrunedHintIsFullHint(c, interval, stored, history, h);
    }
    var need := Max(RequiredSamples(c.scaleDownThreshold, interval), RequiredSamples(c.scaleUpThreshold, interval));
    if 0 < need <= |life| && life[|life| - need].stamp >= Cutoff(life) {
      assert |stored| >= need;
      CoveringWindowDecidesAlike(c, interval, stored, history, h);
    }
    hide Hint, Recent, HintsSeparated, StoredBy, Cutoff, History, NonNegative, RequiredSamples;
  }

  /** The writes of a collector for these settings: usages, in order, at most one per interval, pruned at once. */
  ghost predicate Collected(c: Settings, interval: int, life: seq<Write>) {
    && InOrder(life) && life != [] && NonNegative(History(life))
    && (forall i :: 0 <= i < |life| ==> life[i].now == life[i].stamp && life[i].threshold == LongerThreshold(c))
    && (forall i :: 0 < i < |life| ==> life[i].stamp - life[i - 1].stamp >= interval)
  }

  /** One time per interval, but for a pause after the first few. */
  function PausedTime(interval: int, pause: int, first: int, i: int): int {
    i * interval + if i < first then 0 else pause
  }

  lemma PausedTimes(interval: int, pause: int, first: int, i: int, j: int)
    requires interval > 0 && pause >= 0 && i < j
    ensures var before, after := PausedTime(interval, pause, first, i), PausedTime(interval, pause, first, j);
            && before + interval <= after
            && (i < first <= j ==> before < after - pause)
            && (first <= i ==> after - before == (j - i) * interval)
  {
    Multiples(interval, i, j);
  }

  lemma Multiples(interval: int, i: int, j: int)
    requires interval > 0 && i < j
    ensures j * interval - i * interval == (j - i) * interval >= interval
  {
    var n := j - i;
    assert j * interval == i * interval + n * interval by {
      assert j == i + n;
    }
    assert (n - 1) * interval >= 0;
    assert n * interval == (n - 1) * interval + interval;
  }

  /** Samples of one usage at such times, the pause being the longer threshold. */
  function Paused(c: Settings, interval: int, value: int, first: nat, n: nat): seq<Write> {
    var pause := LongerThreshold(c);
    seq(n, i => var time := PausedTime(interval, pause, first, i); Write(value, time, time, pause))
  }

  lemma PausedIsCollected(c: Settings, interval: int, value: int, first: nat, n: nat)
    requires CrdMinima(c) && interval > 0 && value >= 0 && n > 0
    ensures Collected(c, interval, Paused(c, interval, value, first, n))
  {
    var life := Paused(c, interval, value, first, n);
    hide PausedTime;
    forall i, j | 0 <= i < j < n ensures life[i].stamp + interval <= life[j].stamp {
      PausedTimes(interval, LongerThreshold(c), first, i, j);
    }
  }

  /** After the pause only the samples since then are stored. */
  lemma {:induction false} PausedIsPruned(c: Settings, interval: int, value: int, first: nat, n: nat)
    requires CrdMinima(c) && interval > 0 && value >= 0 && first < n
    requires (n - 1 - first) * interval <= LongerThreshold(c)
    ensures StoredBy(Paused(c, interval, value, first, n))
         == Some(History(Paused(c, interval, value, first, n))[first..])
  {
    hide StoredBy, Paused, History, LongerThreshold;
    if n - 1 == first {
      AllBeforePause(c, interval, value, first);
    } else {
      Multiples(interval, n - 2 - first, n - 1 - first);
      PausedIsPruned(c, interval, value, first, n - 1);
      AllAfterPause(c, interval, value, first, n);
      NothingPruned(c, interval, value, first, n);
    }
  }

  lemma NothingPruned(c: Settings, interval: int, value: int, first: nat, n: nat)
    requires interval > 0 && first < n - 1
    requires var before := Paused(c, interval, value, first, n - 1);
             StoredBy(before) == Some(History(before)[first..])
    requires var life := Paused(c, interval, value, first, n);
             forall i :: first <= i < n - 1 ==> life[i].stamp >= life[n - 1].now - life[n - 1].threshold
    ensures StoredBy(Paused(c, interval, value, first, n))
         == Some(History(Paused(c, interval, value, first, n))[first..])
  {
    hide PausedTime, Recent, LongerThreshold;
    var life, before := Paused(c, interval, value, first, n), Paused(c, interval, value, first, n - 1);
    var last, kept := life[n - 1], History(before)[first..];
    assert life[..n - 1] == before;
    HistoryMore(life);
    AllRecent(kept, last.now - last.threshold);
    assert History(life)[first..] == kept + [SampleOf(last)];
  }

  lemma AllAfterPause(c: Settings, interval: int, value: int, first: nat, n: nat)
    requires CrdMinima(c) && interval > 0 && first < n - 1 && (n - 1 - first) * interval <= LongerThreshold(c)
    ensures var life := Paused(c, interval, value, first, n);
            forall i :: first <= i < n - 1 ==> life[i].stamp >= life[n - 1].now - life[n - 1].threshold
  {
    hide PausedTime;
    forall i | first <= i < n - 1
      ensures PausedTime(interval, LongerThreshold(c), first, i)
           >= PausedTime(interval, LongerThreshold(c), first, n - 1) - LongerThreshold(c)
    {
      PausedTimes(interval, LongerThreshold(c), first, i, n - 1);
      if i > first {
        Multiples(interval, n - 1 - i, n - 1 - first);
      }
    }
  }

  lemma AllBeforePause(c: Settings, interval: int, value: int, first: nat)
    requires CrdMinima(c) && interval > 0 && value >= 0
    ensures StoredBy(Paused(c, interval, value, first, first + 1))
         == Some(History(Paused(c, interval, value, first, first + 1))[first..])
  {
    var longer, life := Paused(c, interval, value, first, first + 1), Paused(c, interval, value, first, first);
    var last := longer[first];
    assert longer[..first] == life;
    assert Store(StoredBy(life), last) == [SampleOf(last)] by {
      BeforePauseIsDropped(c, interval, value, first);
    }
    hide PausedTime, Store, LongerThreshold;
    HistoryMore(longer);
  }

  lemma BeforePauseIsDropped(c: Settings, interval: int, value: int, first: nat)
    requires CrdMinima(c) && interval > 0 && value >= 0
    ensures var last := Paused(c, interval, value, first, first + 1)[first];
            Store(StoredBy(Paused(c, interval, value, first, first)), last) == [SampleOf(last)]
  {
    var life, last := Paused(c, interval, value, first, first), Paused(c, interval, value, first, first + 1)[first];
    hide PausedTime;
    if first > 0 {
      PausedIsCollected(c, interval, value, first, first);
      StoredIsSuffix(life);
      OldBeforePause(c, interval, value, first, StoredBy(life).value);
      hide StoredBy, Recent, Paused;
    }
  }

  lemma OldBeforePause(c: Settings, interval: int, value: int, first: nat, stored: seq<Sample>)
    requires CrdMinima(c) && interval > 0 && first > 0
    requires EndOfHistory(Paused(c, interval, value, first, first), stored)
    ensures var last := Paused(c, interval, value, first, first + 1)[first];
            Recent(stored, last.now - last.threshold) == []
  {
    var life, last := Paused(c, interval, value, first, first), Paused(c, interval, value, first, first + 1)[first];
    hide PausedTime, Recent, Cutoff;
    forall i | 0 <= i < first ensures History(life)[i].time < last.now - last.threshold {
      PausedTimes(interval, LongerThreshold(c), first, i, first);
    }
    AllOld(stored, last.now - last.threshold);
  }

  /**
    Main result. For exactly the settings that separate the hints, no life of a metric set misleads
    the autoscaler, be it only the lives of a collector that writes at most once per interval.
  */
  lemma HintsMisleadExactly(c: Settings, interval: int)
    requires interval > 0 && CrdMinima(c)
    ensures HintsSeparated(c, interval) ==>
              forall life, h ::
                InOrder(life) && life != [] && NonNegative(History(life)) ==> !Misled(c, interval, life, h)
    ensures !HintsSeparated(c, interval) ==>
              exists life, h :: Collected(c, interval, life) && Misled(c, interval, life, h)
  {
    if HintsSeparated(c, interval) {
      forall life, h | InOrder(life) && life != [] && NonNegative(History(life))
        ensures !Misled(c, interval, life, h)
      {
        StoredHintIsHistoryHint(life, c, interval, h);
      }
    } else {
      var life, h := UnseparatedHintsDiffer(c, interval);
    }
  }

  /** The settings that do not separate the hints: a pause after enough samples turns DOWN into UP. */
  lemma UnseparatedHintsDiffer(c: Settings, interval: int) returns (life: seq<Write>, h: HintInput)
    requires interval > 0 && CrdMinima(c) && !HintsSeparated(c, interval)
    ensures Collected(c, interval, life) && Misled(c, interval, life, h)
    ensures Hint(c, interval, StoredBy(life), h) == UP && Hint(c, interval, Some(History(life)), h) == DOWN
  {
    var down, up := RequiredSamples(c.scaleDownThreshold, interval), RequiredSamples(c.scaleUpThreshold, interval);
    RequiredSamplesMeaning(c.scaleDownThreshold, interval);
    RequiredSamplesMeaning(c.scaleUpThreshold, interval);
    var value := if up == 0 then 0 else c.scaleUpCPUBoundary + 1;
    var first := down - Max(up, 1);
    life, h := Paused(c, interval, value, first, down), HintInput(None, None, 0, 0);
    WindowFits(c, interval);
    PausedIsCollected(c, interval, value, first, down);
    PausedIsPruned(c, interval, value, first, down);
    var history := History(life);
    var stored := history[first..];
    hide RequiredSamples, StoredBy;
    SuffixRequirements(c, interval, stored, history);
    assert forall i :: 0 <= i < down ==> history[i].value == value;
    assert DownRequired(c, interval, history);
    assert UpRequired(c, interval, stored);
  }

  /** The samples UP needs lie within the time samples are kept. */
  lemma WindowFits(c: Settings, interval: int)
    requires interval > 0 && CrdMinima(c)
    ensures var up := RequiredSamples(c.scaleUpThreshold, interval);
            (Max(up, 1) - 1) * interval <= LongerThreshold(c)
  {
    RequiredSamplesMeaning(c.scaleUpThreshold, interval);
    var up := RequiredSamples(c.scaleUpThreshold, interval);
    if up > 0 {
      CeilDivLeast(c.scaleUpThreshold, interval, up - 1);
    }
  }

  // ----- what pruning keeps -----

  /** Writes for these settings, no two further apart than an interval and each pruned at its stamp. */
  ghost predicate Steady(c: Settings, interval: int, life: seq<Write>) {
    && life != [] && InOrder(life)
    && (forall i :: 0 <= i < |life| ==> life[i].now == life[i].stamp && life[i].threshold == LongerThreshold(c))
    && (forall i :: 0 < i < |life| ==> life[i].stamp - life[i - 1].stamp <= interval)
  }

  lemma {:induction false} SteadyCutoff(c: Settings, interval: int, life: seq<Write>)
    requires Steady(c, interval, life)
    ensures Cutoff(life) <= Max(life[0].stamp, life[|life| - 1].stamp - LongerThreshold(c))
  {
    if |life| > 1 {
      SteadyCutoff(c, interval, life[..|life| - 1]);
    }
  }

  lemma {:induction false} SteadySpan(c: Settings, interval: int, life: seq<Write>, k: nat)
    requires Steady(c, interval, life) && interval > 0 && k < |life|
    ensures life[|life| - 1].stamp - life[|life| - 1 - k].stamp <= k * interval
  {
    if k > 0 {
      SteadySpan(c, interval, life, k - 1);
      Multiples(interval, k - 1, k);
    }
  }

  /** A window that fits into the time samples are kept is stored, as far as there are samples. */
  lemma WindowIsKept(c: Settings, interval: int, life: seq<Write>, threshold: int)
    requires Steady(c, interval, life) && interval > 0 && 0 <= threshold <= LongerThreshold(c)
    ensures |StoredBy(life).value| >= Min(|life|, RequiredSamples(threshold, interval))
  {
    StoredIsSuffix(life);
    SteadyCutoff(c, interval, life);
    RequiredSamplesMeaning(threshold, interval);
    var n := Min(|life|, RequiredSamples(threshold, interval));
    if n > 0 {
      NeededIsRecent(c, interval, life, threshold, n);
      EndReaches(life, StoredBy(life).value, n);
    }
    hide *;
  }

  lemma EndReaches(life: seq<Write>, stored: seq<Sample>, n: nat)
    requires life != [] && EndOfHistory(life, stored) && 0 < n <= |life| && life[|life| - n].stamp >= Cutoff(life)
    ensures |stored| >= n
  {
    hide Cutoff, History, IsSuffix;
  }

  lemma NeededIsRecent(c: Settings, interval: int, life: seq<Write>, threshold: int, n: nat)
    requires Steady(c, interval, life) && interval > 0 && 0 <= threshold <= LongerThreshold(c)
    requires 0 < n <= |life| && n <= RequiredSamples(threshold, interval)
    ensures life[|life| - n].stamp >= Max(life[0].stamp, life[|life| - 1].stamp - LongerThreshold(c))
  {
    RequiredSamplesMeaning(threshold, interval);
    CeilDivLeast(threshold, interval, n - 1);
    SteadySpan(c, interval, life, n - 1);
    hide Steady, RequiredSamples, CeilDiv;
    assert life[0].stamp <= life[|life| - n].stamp by {
      FirstIsEarliest(c, interval, life, |life| - n);
    }
  }

  lemma FirstIsEarliest(c: Settings, interval: int, life: seq<Write>, i: nat)
    requires Steady(c, interval, life) && i < |life|
    ensures life[0].stamp <= life[i].stamp
  {
  }

  /**
    Main result. While a sample is stored at least once per interval, what is stored holds both
    windows, as far as there are samples, and gives the hint of the whole history, NONE included.
  */
  lemma SteadyHintIsHistoryHint(c: Settings, interval: int, life: seq<Write>, h: HintInput)
    requires CrdMinima(c) && interval > 0 && Steady(c, interval, life)
    ensures |StoredBy(life).value| >= Min(|life|, RequiredSamples(c.scaleDownThreshold, interval))
    ensures |StoredBy(life).value| >= Min(|life|, RequiredSamples(c.scaleUpThreshold, interval))
    ensures Hint(c, interval, StoredBy(life), h) == Hint(c, interval, Some(History(life)), h)
  {
    WindowIsKept(c, interval, life, c.scaleDownThreshold);
    WindowIsKept(c, interval, life, c.scaleUpThreshold);
    StoredIsSuffix(life);
    hide StoredBy, RequiredSamples, Hint, Cutoff;
    CoveringWindowDecidesAlike(c, interval, StoredBy(life).value, History(life), h);
  }

  // ----- calculateMedian -----

  function CountBelow(s: seq<int>, m: int): int {
    Sum(s, x => if x < m then 1 else 0)
  }

  function CountAtMost(s: seq<int>, m: int): int {
    Sum(s, x => if x <= m then 1 else 0)
  }

  function Ascending(): (int, int) -> bool {
    (a: int, b: int) => a <= b
  }

  /**
    Sorts the values in place and returns the lower median: a value of which at most
    (n-1)/2 values are smaller and more than (n-1)/2 are not greater.
  */
  method CalculateMedian(values: array<int>) returns (median: int)
    requires values.Length > 0
    modifies values
    ensures IsSortOf(values[..], old(values[..]), Ascending())
    ensures median in old(values[..])
    ensures CountBelow(old(values[..]), median) <= (values.Length - 1) / 2 < CountAtMost(old(values[..]), median)
  {
    ghost var before := values[..];
    var sorted := Sort(values[..], Ascending());
    PermutationMembers(sorted, before);
    forall i | 0 <= i < values.Length {
      values[i] := sorted[i];
    }
    assert values[..] == sorted;
    median := values[(values.Length - 1) / 2];
    MedianRank(sorted, before, (values.Length - 1) / 2);
  }

  lemma MedianRank(sorted: seq<int>, s: seq<int>, k: nat)
    requires IsSortOf(sorted, s, Ascending()) && k < |sorted|
    ensures CountBelow(s, sorted[k]) <= k < CountAtMost(s, sorted[k])
    ensures sorted[k] in s
  {
    PermutationMembers(sorted, s);
    SumPermutation(sorted, s, x => if x < sorted[k] then 1 else 0);
    SumPermutation(sorted, s, x => if x <= sorted[k] then 1 else 0);
    BelowRank(sorted, k);
    AtMostRank(sorted, k);
    hide Sum;
  }

  lemma BelowRank(sorted: seq<int>, k: nat)
    requires SortedBy(sorted, Ascending()) && k < |sorted|
    ensures CountBelow(sorted, sorted[k]) <= k
  {
    var front, back := sorted[..k], sorted[k..];
    var f := x => if x < sorted[k] then 1 else 0;
    assert sorted == front + back;
    SumConcat(front, back, f);
    SumBits(front, f);
    forall i | 0 <= i < |back| ensures f(back[i]) == 0 {
      assert i > 0 ==> Ascending()(sorted[k], sorted[k + i]);
    }
    SumZero(back, f);
  }

  lemma AtMostRank(sorted: seq<int>, k: nat)
    requires SortedBy(sorted, Ascending()) && k < |sorted|
    ensures CountAtMost(sorted, sorted[k]) > k
  {
    var front, back := sorted[..k + 1], sorted[k + 1..];
    var f := x => if x <= sorted[k] then 1 else 0;
    assert sorted == front + back;
    SumConcat(front, back, f);
    SumBits(back, f);
    forall i | 0 <= i < |front| ensures f(front[i]) == 1 {
      assert i < k ==> Ascending()(sorted[i], sorted[k]);
    }
    SumOnes(front, f);
  }

  lemma {:induction false} SumBits(s: seq<int>, f: int -> int)
    requires forall x :: 0 <= f(x) <= 1
    ensures 0 <= Sum(s, f) <= |s|
  {
    if s != [] {
      SumBits(s[..|s| - 1], f);
    }
  }

  lemma {:induction false} SumZero(s: seq<int>, f: int -> int)
    requires forall i :: 0 <= i < |s| ==> f(s[i]) == 0
    ensures Sum(s, f) == 0
  {
    if s != [] {
      SumZero(s[..|s| - 1], f);
    }
  }

  lemma {:induction false} SumOnes(s: seq<int>, f: int -> int)
    requires forall i :: 0 <= i < |s| ==> f(s[i]) == 1
    ensures Sum(s, f) == |s|
  {
    if s != [] {
      SumOnes(s[..|s| - 1], f);
    }
  }
}
