/** The scanner's one pass over consecutive tenth-MHz channels, reporting one station per cluster of
    channels at or above the squelch threshold. Channels are given by their number of tenths of a MHz. */
module Scanner {
  const NO_RSSI: real := -999.0

  predicate Odd(channel: int) {
    channel % 2 != 0
  }

  /** The channel's number of tenths of a MHz ends in 1, 3, 5, 7 or 9, as those of FM stations do. */
  predicate OddTenth(channel: int) {
    channel % 10 == 1 || channel % 10 == 3 || channel % 10 == 5 || channel % 10 == 7 || channel % 10 == 9
  }

  /** `[a, b)` is a maximal run of channels at or above squelch. */
  ghost predicate Run(power: seq<real>, squelch: real, a: int, b: int) {
    && 0 <= a < b <= |power|
    && (forall i :: a <= i < b ==> power[i] >= squelch)
    && (a == 0 || power[a - 1] < squelch) && (b == |power| || power[b] < squelch)
  }

  /** `j` is the earliest strongest odd-tenth channel of `[a, b)`, and stronger than the -999 the scan
      starts from. */
  ghost predicate Best(power: seq<real>, first: nat, a: int, b: int, j: int) {
    && 0 <= a <= j < b <= |power| && OddTenth(first + j) && power[j] > -999.0
    && forall i :: a <= i < b && OddTenth(first + i) ==> power[i] <= power[j] && (i < j ==> power[i] < power[j])
  }

  /** Channel `first + j` is the station of a run of at least two channels. */
  ghost predicate Station(power: seq<real>, squelch: real, first: nat, j: int) {
    exists a, b :: Run(power, squelch, a, b) && b - a >= 2 && Best(power, first, a, b, j)
  }

  predicate Increasing(s: seq<int>) {
    forall i, j :: 0 <= i < j < |s| ==> s[i] < s[j]
  }

  /** What `bestFreq` and `bestRssi` say of the channels `[a, k)`; frequency 0 means none. */
  ghost predicate Tracks(power: seq<real>, first: nat, a: int, k: int, bestFreq: int, bestRssi: real)
    requires 0 <= a <= k <= |power|
  {
    if bestFreq == 0 then
      bestRssi == -999.0 && forall i :: a <= i < k && OddTenth(first + i) ==> power[i] <= -999.0
    else
      Best(power, first, a, k, bestFreq - first) && bestRssi == power[bestFreq - first]
  }

  /** The stations of all runs that end at or before `k`. */
  ghost predicate Reported(power: seq<real>, squelch: real, first: nat, k: int, found: seq<int>) {
    && Increasing(found) && (forall x :: x in found ==> first <= x < first + k && Station(power, squelch, first, x - first))
    && Complete(power, squelch, first, k, found)
  }

  ghost predicate Complete(power: seq<real>, squelch: real, first: nat, k: int, found: seq<int>) {
    forall a, b, j :: Run(power, squelch, a, b) && b <= k && b - a >= 2 && Best(power, first, a, b, j) ==>
      first + j in found
  }

  lemma RunsAreDisjoint(power: seq<real>, squelch: real, a: int, b: int, a': int, b': int)
    requires Run(power, squelch, a, b) && Run(power, squelch, a', b')
    ensures b < a' || b' < a || (a == a' && b == b')
  {
  }

  /** There is at most one best channel. */
  lemma BestIsUnique(power: seq<real>, first: nat, a: int, b: int, j: int, j': int)
    requires Best(power, first, a, b, j) && Best(power, first, a, b, j')
    ensures j == j'
  {
  }

  lemma OddIsOddTenth(channel: int)
    ensures Odd(channel) <==> OddTenth(channel)
  {
  }

  /** One more channel at or above squelch. */
  lemma TrackOne(power: seq<real>, first: nat, a: int, k: int, bestFreq: int, bestRssi: real)
    requires 0 <= a <= k < |power| && first > 0 && Tracks(power, first, a, k, bestFreq, bestRssi)
    ensures var better := Odd(first + k) && power[k] > bestRssi;
            Tracks(power, first, a, k + 1, if better then first + k else bestFreq, if better then power[k] else bestRssi)
  {
    hide Odd, OddTenth;
    OddIsOddTenth(first + k);
  }

  /** The run `[a, k)` has just ended. */
  lemma RunEnds(power: seq<real>, squelch: real, first: nat, a: int, k: int, bestFreq: int, bestRssi: real,
                found: seq<int>, found': seq<int>)
    requires first > 0 && Run(power, squelch, a, k) && Tracks(power, first, a, k, bestFreq, bestRssi)
    requires Reported(power, squelch, first, a, found)
    requires found' == if k - a >= 2 && bestFreq > 0 then found + [bestFreq] else found
    ensures Reported(power, squelch, first, k, found')
  {
    assert 0 <= a < k;
    hide Station, Best, Run, Tracks, Complete, Increasing, OddTenth;
    RunEndsComplete(power, squelch, first, a, k, bestFreq, bestRssi, found, found');
    if k - a >= 2 && bestFreq > 0 {
      StationFound(power, squelch, first, a, k, bestFreq, bestRssi);
      Appended(found, bestFreq);
    }
  }

  lemma StationFound(power: seq<real>, squelch: real, first: nat, a: int, k: int, bestFreq: int, bestRssi: real)
    requires Run(power, squelch, a, k) && k - a >= 2 && bestFreq > 0 && Tracks(power, first, a, k, bestFreq, bestRssi)
    ensures first + a <= bestFreq < first + k && Station(power, squelch, first, bestFreq - first)
  {
  }

  lemma Appended(found: seq<int>, x: int)
    requires Increasing(found) && forall y :: y in found ==> y < x
    ensures Increasing(found + [x]) && forall y :: y in found + [x] <==> y in found || y == x
  {
    assert forall i :: 0 <= i < |found| ==> found[i] in found;
  }

  lemma RunEndsComplete(power: seq<real>, squelch: real, first: nat, a: int, k: int, bestFreq: int, bestRssi: real,
                        found: seq<int>, found': seq<int>)
    requires first > 0 && Run(power, squelch, a, k) && Tracks(power, first, a, k, bestFreq, bestRssi)
    requires Complete(power, squelch, first, a, found)
    requires found' == if k - a >= 2 && bestFreq > 0 then found + [bestFreq] else found
    ensures Complete(power, squelch, first, k, found')
  {
    assert 0 <= a < k <= |power|;
    hide Run, Best, Tracks;
    forall c, d, j | Run(power, squelch, c, d) && d <= k && d - c >= 2 && Best(power, first, c, d, j)
      ensures first + j in found'
    {
      RunsAreDisjoint(power, squelch, a, k, c, d);
      if d <= a {
        assert first + j in found && found <= found';
      } else {
        assert (c, d) == (a, k);
        TrackedBest(power, first, a, k, bestFreq, bestRssi, j);
        BestIsInside(power, first, a, k, j);
        assert found' == found + [first + j] && found'[|found|] == first + j;
      }
    }
  }

  lemma BestIsInside(power: seq<real>, first: nat, a: int, b: int, j: int)
    requires Best(power, first, a, b, j)
    ensures 0 <= a <= j < b
  {
  }

  lemma TrackedBest(power: seq<real>, first: nat, a: int, k: int, bestFreq: int, bestRssi: real, j: int)
    requires 0 <= a <= k <= |power| && first > 0 && Tracks(power, first, a, k, bestFreq, bestRssi)
    requires Best(power, first, a, k, j)
    ensures bestFreq == first + j
  {
    if bestFreq != 0 {
      BestIsUnique(power, first, a, k, j, bestFreq - first);
    }
  }

  /** No run ends where a channel below squelch follows one below squelch, or within a run. */
  lemma NoRunEnds(power: seq<real>, squelch: real, first: nat, k: int, k': int, found: seq<int>)
    requires Reported(power, squelch, first, k, found) && 0 <= k <= k' <= |power|
    requires forall i :: k <= i < k' ==> power[i] < squelch
    ensures Reported(power, squelch, first, k', found)
  {
    forall a, b, j | Run(power, squelch, a, b) && b <= k' && b - a >= 2 && Best(power, first, a, b, j)
      ensures first + j in found
    {
      assert power[b - 1] >= squelch;
    }
  }

  /** The scan loop and the final flush: the stations come out in increasing order and are exactly the
      earliest strongest odd-tenth channel of each maximal run of at least two. */
  method Scan(first: nat, power: seq<real>, squelch: real) returns (found: seq<int>)
    requires first > 0
    ensures Increasing(found)
    ensures forall x :: x in found <==> first <= x < first + |power| && Station(power, squelch, first, x - first)
  {
    hide Station, Best, Reported, Tracks, Run;
    found := [];
    Nothing(power, squelch, first);
    var bestFreq, bestRssi, inCluster, clusterSteps := 0, NO_RSSI, false, 0;
    var k := 0;
    while k < |power|
      invariant 0 <= k <= |power| && 0 <= clusterSteps <= k && (inCluster <==> clusterSteps > 0)
      invariant Reported(power, squelch, first, k - clusterSteps, found)
      invariant Tracks(power, first, k - clusterSteps, k, bestFreq, bestRssi)
      invariant forall i :: k - clusterSteps <= i < k ==> power[i] >= squelch
      invariant inCluster && k - clusterSteps > 0 ==> power[k - clusterSteps - 1] < squelch
      invariant !inCluster && k > 0 ==> power[k - 1] < squelch
    {
      var currentRssi := power[k];
      if currentRssi >= squelch {
        TrackOne(power, first, k - clusterSteps, k, bestFreq, bestRssi);
        inCluster := true;
        clusterSteps := clusterSteps + 1;
        var freq10 := first + k;
        if Odd(freq10) {
          if currentRssi > bestRssi {
            bestRssi := currentRssi;
            bestFreq := freq10;
          }
        }
      } else {
        ghost var a := k - clusterSteps;
        if inCluster {
          ghost var before := found;
          if clusterSteps >= 2 && bestFreq > 0 {
            found := found + [bestFreq];
          }
          RunIs(power, squelch, a, k);
          BestIsPositive(power, first, a, k, bestFreq, bestRssi);
          RunEnds(power, squelch, first, a, k, bestFreq, bestRssi, before, found);
          inCluster := false;
          bestRssi := NO_RSSI;
          bestFreq := 0;
          clusterSteps := 0;
        }
        NoRunEnds(power, squelch, first, k, k + 1, found);
        NothingTracked(power, first, k + 1, bestFreq, bestRssi, a, k);
      }
      k := k + 1;
    }
    ghost var a := k - clusterSteps;
    if inCluster {
      ghost var before := found;
      RunIs(power, squelch, a, k);
      BestIsPositive(power, first, a, k, bestFreq, bestRssi);
      if clusterSteps >= 2 && bestFreq > 0 {
        found := found + [bestFreq];
      }
      RunEnds(power, squelch, first, a, k, bestFreq, bestRssi, before, found);
    }
    AllReported(power, squelch, first, found);
  }

  lemma Nothing(power: seq<real>, squelch: real, first: nat)
    ensures Reported(power, squelch, first, 0, []) && Tracks(power, first, 0, 0, 0, NO_RSSI)
  {
  }

  lemma NothingTracked(power: seq<real>, first: nat, k: int, bestFreq: int, bestRssi: real, a: int, b: int)
    requires 0 <= k <= |power| && ((bestFreq == 0 && bestRssi == NO_RSSI) || (0 <= a == b <= |power| && Tracks(power, first, a, b, bestFreq, bestRssi)))
    ensures Tracks(power, first, k, k, bestFreq, bestRssi)
  {
  }

  lemma RunIs(power: seq<real>, squelch: real, a: int, b: int)
    requires 0 <= a < b <= |power| && (forall i :: a <= i < b ==> power[i] >= squelch)
    requires (a == 0 || power[a - 1] < squelch) && (b == |power| || power[b] < squelch)
    ensures Run(power, squelch, a, b)
  {
  }

  lemma BestIsPositive(power: seq<real>, first: nat, a: int, k: int, bestFreq: int, bestRssi: real)
    requires 0 <= a <= k <= |power| && first > 0 && Tracks(power, first, a, k, bestFreq, bestRssi)
    ensures bestFreq >= 0
  {
  }

  lemma AllReported(power: seq<real>, squelch: real, first: nat, found: seq<int>)
    requires Reported(power, squelch, first, |power|, found)
    ensures Increasing(found)
    ensures forall x :: x in found <==> first <= x < first + |power| && Station(power, squelch, first, x - first)
  {
    forall x | first <= x < first + |power| && Station(power, squelch, first, x - first) ensures x in found {
      var a, b :| Run(power, squelch, a, b) && b - a >= 2 && Best(power, first, a, b, x - first);
      assert first + (x - first) in found;
    }
  }

  /** Every maximal run of at least two channels with powers above -999 has exactly one station. */
  lemma OneStationPerRun(power: seq<real>, squelch: real, first: nat, a: int, b: int) returns (j: int)
    requires Run(power, squelch, a, b) && b - a >= 2 && forall i :: a <= i < b ==> power[i] > -999.0
    ensures a <= j < b && Station(power, squelch, first, j)
    ensures forall j' :: a <= j' < b && Station(power, squelch, first, j') ==> j' == j
  {
    j := Strongest(power, first, a, b);
    assert Best(power, first, a, b, j);
    forall j' | a <= j' < b && Station(power, squelch, first, j') ensures j' == j {
      var c, d :| Run(power, squelch, c, d) && d - c >= 2 && Best(power, first, c, d, j');
      RunsAreDisjoint(power, squelch, a, b, c, d);
      BestIsUnique(power, first, a, b, j, j');
    }
  }

  lemma {:induction false} Strongest(power: seq<real>, first: nat, a: int, b: int) returns (j: int)
    requires 0 <= a < b <= |power| && (forall i :: a <= i < b ==> power[i] > -999.0)
    requires OddTenth(first + a) || b - a >= 2
    ensures Best(power, first, a, b, j)
    decreases b - a
  {
    if b - a == 1 || (b - a == 2 && !OddTenth(first + a)) {
      j := b - 1;
    } else {
      j := Strongest(power, first, a, b - 1);
      if OddTenth(first + (b - 1)) && power[b - 1] > power[j] {
        j := b - 1;
      }
    }
  }
}
