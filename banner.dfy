/**
 * The banner component: a four-track audio player whose current track and
 * playing flag move under the Prev / Play-Pause / Next buttons and the
 * audio element's events, and a background video chosen by the shape of
 * the window.
 *
 * The transitions are pure functions on a `Player` value; the `Banner`
 * class holds the component's state variables and each of its methods is
 * one event handler (with the state update React applies after it).
 */
module Banner {
  /** Tall windows at or above this height-to-width ratio get the vertical video (1.7, as a fraction). */
  const AspectNumerator: nat := 17
  const AspectDenominator: nat := 10
  /** Windows at most this wide get the vertical video whatever their shape. */
  const SmallWidthMax: nat := 480

  const Playlist: seq<string> := ["/popular.mp3", "/american.mp3", "/tongue.mp3", "/inusa.mp3"]

  const VerticalVideo: string := "/verticalvideo.mp4"
  const MainVideo: string := "/mainvideo.mp4"

  // ---------------------------------------------------------------------
  // Playlist transitions

  /** The index after `t`, wrapping from the last track to the first. */
  function NextIndex(t: nat): (r: nat)
    ensures r < |Playlist|
  {
    (t + 1) % |Playlist|
  }

  /** The index before `t`, wrapping from the first track to the last. */
  function PrevIndex(t: nat): (r: nat)
    ensures r < |Playlist|
  {
    (t - 1 + |Playlist|) % |Playlist|
  }

  datatype Player = Player(trackIndex: nat, isPlaying: bool)

  predicate InRange(p: Player) {
    p.trackIndex < |Playlist|
  }

  /** The Next button: the following track, playing. */
  function Next(p: Player): Player {
    Player(NextIndex(p.trackIndex), true)
  }

  /** The Prev button: the preceding track, playing. */
  function Prev(p: Player): Player {
    Player(PrevIndex(p.trackIndex), true)
  }

  /** The audio element's `ended` event: the next track while there is one, else stop. */
  function Ended(p: Player): Player {
    if p.trackIndex < |Playlist| - 1 then Player(p.trackIndex + 1, true)
    else p.(isPlaying := false)
  }

  /** The Play/Pause button: pause when playing, else whatever `play()` achieved. */
  function Toggle(p: Player, playSucceeds: bool): Player {
    if p.isPlaying then p.(isPlaying := false) else p.(isPlaying := playSucceeds)
  }

  /** Loading a new track: it starts if the player was playing, and a refused `play()` stops the player. */
  function Loaded(p: Player, playSucceeds: bool): Player {
    if p.isPlaying && !playSucceeds then p.(isPlaying := false) else p
  }

  /** `n` presses of Next. */
  function NextTimes(n: nat, p: Player): Player {
    if n == 0 then p else Next(NextTimes(n - 1, p))
  }

  /** `n` `ended` events in a row. */
  function EndedTimes(n: nat, p: Player): Player {
    if n == 0 then p else Ended(EndedTimes(n - 1, p))
  }

  /** Every transition keeps the index inside the playlist. */
  lemma TransitionsStayInRange(p: Player, ok: bool)
    requires InRange(p)
    ensures InRange(Next(p)) && InRange(Prev(p)) && InRange(Ended(p))
    ensures InRange(Toggle(p, ok)) && InRange(Loaded(p, ok))
  {
  }

  /** Next and Prev always leave the player playing. */
  lemma NextPrevPlay(p: Player)
    ensures Next(p).isPlaying && Prev(p).isPlaying
  {
  }

  /** Prev undoes Next and Next undoes Prev, as far as the track is concerned. */
  lemma PrevUndoesNext(p: Player)
    requires InRange(p)
    ensures Prev(Next(p)) == Next(Prev(p)) == p.(isPlaying := true)
  {
  }

  /** `n` presses of Next move forward `n` places around the playlist. */
  lemma {:induction false} NextTimesWraps(n: nat, p: Player)
    requires InRange(p)
    ensures NextTimes(n, p).trackIndex == (p.trackIndex + n) % |Playlist|
    ensures n > 0 ==> NextTimes(n, p).isPlaying
  {
    if n > 0 {
      NextTimesWraps(n - 1, p);
      assert |Playlist| == 4;
      var k := p.trackIndex + n - 1;
      assert NextTimes(n, p).trackIndex == (k % 4 + 1) % 4;
      ModSucc(k);
    }
  }

  lemma ModSucc(k: nat)
    ensures (k % 4 + 1) % 4 == (k + 1) % 4
  {
  }

  /** As many presses of Next as there are tracks come back to the starting track. */
  lemma NextCycles(p: Player)
    requires InRange(p)
    ensures NextTimes(|Playlist|, p) == p.(isPlaying := true)
  {
    NextTimesWraps(|Playlist|, p);
  }

  /** `ended` never wraps: on the last track it stops and stays on the last track. */
  lemma EndedNeverWraps(p: Player)
    requires InRange(p)
    ensures p.trackIndex < |Playlist| - 1 ==> Ended(p) == Player(p.trackIndex + 1, true)
    ensures p.trackIndex == |Playlist| - 1 ==> Ended(p) == Player(p.trackIndex, false)
    ensures Ended(p).trackIndex >= p.trackIndex
  {
  }

  /** From any track, `ended` events play on to the last track and then the player stops there. */
  lemma {:induction false} EndedTimesPlaysThrough(n: nat, p: Player)
    requires InRange(p)
    ensures EndedTimes(n, p).trackIndex == if p.trackIndex + n < |Playlist| then p.trackIndex + n else |Playlist| - 1
    ensures n > 0 ==> EndedTimes(n, p).isPlaying == (p.trackIndex + n < |Playlist|)
  {
    if n > 0 {
      EndedTimesPlaysThrough(n - 1, p);
    }
  }

  /** Play/Pause while playing always pauses; while paused it plays exactly when `play()` succeeds. */
  lemma ToggleMeans(p: Player, ok: bool)
    ensures Toggle(p, ok).trackIndex == p.trackIndex
    ensures Toggle(p, ok).isPlaying <==> !p.isPlaying && ok
  {
  }

  // ---------------------------------------------------------------------
  // Window shape

  /** `a || b` on window sizes: a zero (falsy) first measure falls back to the second. */
  function OrElse(a: nat, b: nat): (r: nat)
    ensures a != 0 ==> r == a
    ensures a == 0 ==> r == b
  {
    if a != 0 then a else b
  }

  /** The vertical-video decision on the measured width and height, by cross-multiplication. */
  predicate TallOrSmall(w: nat, h: nat) {
    var d := if w > 1 then w else 1;
    AspectDenominator * h >= AspectNumerator * d || w <= SmallWidthMax
  }

  /** The decision from the window's inner size, falling back to the document element's client size. */
  predicate PortraitTall(innerW: nat, clientW: nat, innerH: nat, clientH: nat) {
    TallOrSmall(OrElse(innerW, clientW), OrElse(innerH, clientH))
  }

  /** The decision as written: `h / max(1, w) >= 1.7 || w <= 480`, on exact ratios. */
  lemma TallOrSmallIsRatio(w: nat, h: nat)
    ensures TallOrSmall(w, h) <==>
      (h as real) / ((if w > 1 then w else 1) as real) >= 1.7 || w <= SmallWidthMax
  {
    var d := (if w > 1 then w else 1) as real;
    RatioAtLeast(h as real, d, 1.7);
  }

  /** For a positive divisor, `h / d >= c` is `h >= c * d`. */
  lemma RatioAtLeast(h: real, d: real, c: real)
    requires d > 0.0
    ensures h / d >= c <==> h >= c * d
  {
    var q := h / d;
    assert q * d == h;
    if q >= c {
      assert (q - c) * d >= 0.0;
    } else {
      assert (c - q) * d > 0.0;
    }
  }

  /** A small window always gets the vertical video. */
  lemma SmallIsPortrait(w: nat, h: nat)
    requires w <= SmallWidthMax
    ensures TallOrSmall(w, h)
  {
  }

  /** A wide window gets it exactly when it is at least 1.7 times as tall as it is wide. */
  lemma WideIsPortraitIffTall(w: nat, h: nat)
    requires w > SmallWidthMax
    ensures TallOrSmall(w, h) <==> 10 * h >= 17 * w
  {
  }

  function VideoFor(portrait: bool): (r: string)
    ensures r == VerticalVideo <==> portrait
  {
    if portrait then VerticalVideo else MainVideo
  }

  // ---------------------------------------------------------------------
  // The component

  class Banner {
    var trackIndex: nat
    var isPlaying: bool
    var isPortraitTall: bool
    var videoSrc: string
    /** The `src` of the audio element. */
    var audioSrc: string

    function State(): Player
      reads this
    {
      Player(trackIndex, isPlaying)
    }

    /** The track is in the playlist and the video matches the layout. */
    predicate Valid()
      reads this
    {
      InRange(State()) && videoSrc == VideoFor(isPortraitTall)
    }

    /**
     * Mounting: state starts at the first track, not playing; the mount
     * effects then pick the layout from the window size and load the
     * first track into the audio element.
     */
    constructor(innerW: nat, clientW: nat, innerH: nat, clientH: nat)
      ensures Valid()
      ensures State() == Player(0, false)
      ensures isPortraitTall == PortraitTall(innerW, clientW, innerH, clientH)
      ensures audioSrc == Playlist[0]
    {
      trackIndex := 0;
      isPlaying := false;
      var portrait := PortraitTall(innerW, clientW, innerH, clientH);
      isPortraitTall := portrait;
      videoSrc := VideoFor(portrait);
      audioSrc := Playlist[0];
    }

    /** A resize, once the debounce timer fires: the layout and the video follow the new size. */
    method Relayout(innerW: nat, clientW: nat, innerH: nat, clientH: nat)
      requires Valid()
      modifies this
      ensures Valid()
      ensures isPortraitTall == PortraitTall(innerW, clientW, innerH, clientH)
      ensures videoSrc == (if isPortraitTall then VerticalVideo else MainVideo)
      ensures State() == old(State()) && audioSrc == old(audioSrc)
    {
      var portrait := PortraitTall(innerW, clientW, innerH, clientH);
      isPortraitTall := portrait;
      videoSrc := VideoFor(portrait);
    }

    method NextTrack()
      requires Valid()
      modifies this
      ensures Valid()
      ensures State() == Next(old(State()))
      ensures isPortraitTall == old(isPortraitTall) && videoSrc == old(videoSrc) && audioSrc == old(audioSrc)
    {
      trackIndex := (trackIndex + 1) % |Playlist|;
      isPlaying := true;
    }

    method PrevTrack()
      requires Valid()
      modifies this
      ensures Valid()
      ensures State() == Prev(old(State()))
      ensures isPortraitTall == old(isPortraitTall) && videoSrc == old(videoSrc) && audioSrc == old(audioSrc)
    {
      trackIndex := (trackIndex - 1 + |Playlist|) % |Playlist|;
      isPlaying := true;
    }

    method OnEnded()
      requires Valid()
      modifies this
      ensures Valid()
      ensures State() == Ended(old(State()))
      ensures isPortraitTall == old(isPortraitTall) && videoSrc == old(videoSrc) && audioSrc == old(audioSrc)
    {
      if trackIndex < |Playlist| - 1 {
        trackIndex := trackIndex + 1;
        isPlaying := true;
      } else {
        isPlaying := false;
      }
    }

    /** The audio element's `play` event. */
    method OnPlay()
      requires Valid()
      modifies this
      ensures Valid()
      ensures State() == old(State()).(isPlaying := true)
      ensures isPortraitTall == old(isPortraitTall) && videoSrc == old(videoSrc) && audioSrc == old(audioSrc)
    {
      isPlaying := true;
    }

    /** The audio element's `pause` event. */
    method OnPause()
      requires Valid()
      modifies this
      ensures Valid()
      ensures State() == old(State()).(isPlaying := false)
      ensures isPortraitTall == old(isPortraitTall) && videoSrc == old(videoSrc) && audioSrc == old(audioSrc)
    {
      isPlaying := false;
    }

    /**
     * The Play/Pause button. `playSucceeds` is how the promise returned by
     * `play()` settles; an audio element without a source gets the
     * current track first.
     */
    method TogglePlayPause(playSucceeds: bool)
      requires Valid()
      modifies this
      ensures Valid()
      ensures State() == Toggle(old(State()), playSucceeds)
      ensures audioSrc == old(if audioSrc == "" && !isPlaying then Playlist[trackIndex] else audioSrc)
      ensures isPortraitTall == old(isPortraitTall) && videoSrc == old(videoSrc)
    {
      if isPlaying {
        isPlaying := false;
      } else {
        if audioSrc == "" {
          audioSrc := Playlist[trackIndex];
        }
        isPlaying := playSucceeds;
      }
    }

    /**
     * The effect that runs after the track index changed: the new track is
     * loaded and, if the player is playing, started; a refused `play()`
     * stops the player.
     */
    method OnTrackChanged(playSucceeds: bool)
      requires Valid()
      modifies this
      ensures Valid()
      ensures State() == Loaded(old(State()), playSucceeds)
      ensures audioSrc == Playlist[trackIndex]
      ensures isPortraitTall == old(isPortraitTall) && videoSrc == old(videoSrc)
    {
      audioSrc := Playlist[trackIndex];
      if isPlaying && !playSucceeds {
        isPlaying := false;
      }
    }
  }
}
