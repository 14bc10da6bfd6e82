/** internal/predict/predict.go: the hour of the day at which a customer's debits succeeded most. */
module Predict {
  import opened Domain
  import opened Slots

  const MIN_HISTORY := 2

  function HourOf(t: Time): (h: int)
    ensures 0 <= h < 24
  {
    IstClock(t) / HOUR
  }

  /** How many of the instants fall in this hour of an Indian day. */
  function CountHour(history: seq<Time>, h: int): nat {
    if history == [] then 0
    else CountHour(history[..|history| - 1], h) + (if HourOf(history[|history| - 1]) == h then 1 else 0)
  }

  /** The commonest hour; among equally common ones the earliest. */
  predicate IsMode(history: seq<Time>, h: int) {
    && 0 <= h < 24
    && (forall g | 0 <= g < 24 :: CountHour(history, g) <= CountHour(history, h))
    && forall g | 0 <= g < h :: CountHour(history, g) < CountHour(history, h)
  }

  /** Reading a Go map: an absent key counts zero. */
  function Read(counts: map<int, nat>, h: int): nat {
    if h in counts then counts[h] else 0
  }

  method CountHours(history: seq<Time>) returns (counts: map<int, nat>)
    ensures forall h :: Read(counts, h) == CountHour(history, h)
  {
    counts := map[];
    for i := 0 to |history|
      invariant forall h :: Read(counts, h) == CountHour(history[..i], h)
    {
      assert history[..i + 1][..i] == history[..i];
      var hour := HourOf(history[i]);
      counts := counts[hour := Read(counts, hour) + 1];
    }
    assert history[..|history|] == history;
  }

  /** PreferredHour: no preference below two instants, otherwise the mode. */
  method PreferredHour(history: seq<Time>) returns (hour: Option<int>)
    ensures hour.None? <==> |history| < MIN_HISTORY
    ensures hour.Some? ==> IsMode(history, hour.value)
  {
    if |history| < MIN_HISTORY {
      return None;
    }
    var counts := CountHours(history);
    var bestHour: int, bestCount: int := 0, -1;
    for h := 0 to 24
      invariant h == 0 ==> bestCount == -1
      invariant h > 0 ==> 0 <= bestHour < h && bestCount == CountHour(history, bestHour)
      invariant forall g | 0 <= g < h :: CountHour(history, g) <= bestCount
      invariant forall g | 0 <= g < bestHour :: CountHour(history, g) < bestCount
    {
      if Read(counts, h) > bestCount {
        bestHour, bestCount := h, Read(counts, h);
      }
    }
    return Some(bestHour);
  }

  /** Any history has one commonest hour, so the contract of `PreferredHour` leaves no choice. */
  lemma ModeIsUnique(history: seq<Time>, g: int, h: int)
    requires IsMode(history, g) && IsMode(history, h)
    ensures g == h
  {
    assert CountHour(history, g) == CountHour(history, h);
  }
}
