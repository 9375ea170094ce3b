/** The `SFX` entity: one discovered audio file, its settings, and the
    abstract state of its polling task and cancellation source. */
module Clips {

  /** Play odds given to every newly discovered clip ("1 in 1200" per tick). */
  const DefaultOdds: int := 1200

  /** The polling task, as far as the lifecycle can observe it: none started
      yet, running (possibly with its cancellation already requested), or
      completed (it saw the request, or playback threw). */
  datatype Task = NoTask | Running(cancelRequested: bool) | Completed

  /** `isActive` is the public flag; `hasSource` says whether the clip holds a
      live cancellation source. */
  datatype Clip = Clip(
    name: string,
    path: string,
    playOdds: int,
    volume: real,
    isActive: bool,
    task: Task,
    hasSource: bool)

  /** `new SFX(name, path, odds, volume)`: a clip with the given settings and
      no polling task yet. */
  function ClipWith(name: string, path: string, odds: int, volume: real): (c: Clip)
    ensures c.name == name && c.path == path
    ensures c.playOdds == odds && c.volume == volume
    ensures !c.isActive && c.task == NoTask && !c.hasSource
  {
    Clip(name, path, odds, volume, false, NoTask, false)
  }

  /** `new SFX(name, path)`: the default settings, 1 in 1200 at full volume. */
  function NewClip(name: string, path: string): (c: Clip)
    ensures c == ClipWith(name, path, DefaultOdds, 1.0)
    ensures c.playOdds == 1200 && c.volume == 1.0
  {
    ClipWith(name, path, DefaultOdds, 1.0)
  }

  /** `b` is `a` with at most its play odds and volume changed. */
  predicate SameClip(a: Clip, b: Clip)
  {
    a.(playOdds := b.playOdds, volume := b.volume) == b
  }

  /** Position by position, the two clip sets differ at most in settings. */
  predicate SameClips(a: seq<Clip>, b: seq<Clip>)
  {
    |a| == |b| && forall i :: 0 <= i < |a| ==> SameClip(a[i], b[i])
  }

  /** `b` is `a` with nothing but its lifecycle changed. */
  predicate SameSettings(a: Clip, b: Clip)
  {
    a.name == b.name && a.path == b.path && a.playOdds == b.playOdds && a.volume == b.volume
  }
}
