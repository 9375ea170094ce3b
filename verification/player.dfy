/** The polling task's decision (`SfxPlayer`): each tick draws a number in
    `[0, 100 * PlayOdds)` and plays the clip when the draw is below 100. */
module Player {
  import opened Numbers

  /** Play odds the decision is defined for: at least one, and small enough
      that `100 * PlayOdds` does not overflow a 32-bit `int`. */
  predicate ValidOdds(playOdds: int)
  {
    1 <= playOdds && 100 * playOdds <= Int32Max
  }

  /** The draw `random.Next(0, 100 * PlayOdds)` may return. */
  predicate InRange(playOdds: int, draw: int)
  {
    0 <= draw < 100 * playOdds
  }

  /** One tick: the clip plays unless the draw is 100 or more. */
  function ShouldPlay(playOdds: int, draw: int): (r: bool)
    requires ValidOdds(playOdds) && InRange(playOdds, draw)
    ensures r <==> draw < 100
  {
    !(draw >= 100)
  }

  /** The integers from `lo` up to but excluding `hi`. */
  function Range(lo: int, hi: int): (s: set<int>)
    ensures forall r :: r in s <==> lo <= r < hi
    ensures |s| == if lo <= hi then hi - lo else 0
    decreases hi - lo
  {
    if hi <= lo then {} else Range(lo, hi - 1) + {hi - 1}
  }

  /** All draws of one tick. */
  function Draws(playOdds: int): set<int>
  {
    Range(0, 100 * playOdds)
  }

  /** The draws on which the clip plays. */
  function PlayingDraws(playOdds: int): set<int>
    requires ValidOdds(playOdds)
  {
    set r | r in Draws(playOdds) && ShouldPlay(playOdds, r)
  }

  /** Exactly 100 of the `100 * p` possible draws play, so a tick plays with
      probability `1 / p`. */
  lemma PlayProbability(playOdds: int)
    requires ValidOdds(playOdds)
    ensures |PlayingDraws(playOdds)| == 100
    ensures |Draws(playOdds)| == 100 * playOdds
    ensures |PlayingDraws(playOdds)| * playOdds == |Draws(playOdds)|
  {
    assert PlayingDraws(playOdds) == Range(0, 100);
  }

  /** The polling loop over the ticks before cancellation is seen: tick `i`
      reads the play odds current at that tick and draws `draws[i]`. The
      result lists, in order, the ticks on which playback starts. */
  method PollingLoop(odds: seq<int>, draws: seq<int>) returns (played: seq<nat>)
    requires |odds| == |draws|
    requires forall i :: 0 <= i < |draws| ==> ValidOdds(odds[i]) && InRange(odds[i], draws[i])
    ensures forall k :: 0 <= k < |played| ==> played[k] < |draws| && draws[played[k]] < 100
    ensures forall i :: 0 <= i < |draws| && draws[i] < 100 ==> i in played
    ensures forall k, l :: 0 <= k < l < |played| ==> played[k] < played[l]
  {
    played := [];
    for i := 0 to |draws|
      invariant forall k :: 0 <= k < |played| ==> played[k] < i && draws[played[k]] < 100
      invariant forall t :: 0 <= t < i && draws[t] < 100 ==> t in played
      invariant forall k, l :: 0 <= k < l < |played| ==> played[k] < played[l]
    {
      if !ShouldPlay(odds[i], draws[i]) {
        continue;
      }
      played := played + [i];
    }
  }
}
