/** The background-music control (component `MusicPlayer` in
    app/components/MusicPlayer.tsx): a one-way "loaded" gate opened by the
    first click anywhere in the document, and a play/pause toggle. The audio
    element is reduced to whether it exists and to the calls made on it; the
    outcome of the promise returned by the first `play()` arrives as an event
    of its own. */
module Music {

  datatype Option<T> = None | Some(value: T)

  /** Calls made on the audio element, and the one console error the first
      playback reports when the platform refuses it. */
  datatype AudioCall = SetVolume(level: real) | Play | Pause | LogError

  const DefaultSource: string := "https://www.soundhelix.com/examples/mp3/SoundHelix-Song-1.mp3"

  /** The volume of a fresh audio element, and the one set on activation. */
  const DefaultVolume: real := 1.0
  const ActivationVolume: real := 0.3

  const MuteLabel: string := "Mute background music"
  const PlayLabel: string := "Play background music"

  /** `audioSrc || default`: an absent or empty source falls back to the
      default, so the element always gets a non-empty URL. */
  function MusicSource(audioSrc: Option<string>): (r: string)
    ensures audioSrc.Some? && audioSrc.value != "" ==> r == audioSrc.value
    ensures audioSrc.None? || audioSrc.value == "" ==> r == DefaultSource
    ensures r != ""
  {
    match audioSrc
    case Some(s) => if s != "" then s else DefaultSource
    case None => DefaultSource
  }

  /** The toggle button's aria-label: the mute label exactly while playing,
      the play label exactly while not. */
  function AriaLabel(isPlaying: bool): (r: string)
    ensures r == MuteLabel <==> isPlaying
    ensures r == PlayLabel <==> !isPlaying
  {
    if isPlaying then MuteLabel else PlayLabel
  }

  class MusicPlayer {
    /** Whether `audioRef.current` holds an element. */
    const hasAudio: bool
    /** The `src` given to the element. */
    const source: string

    var isPlaying: bool
    var isLoaded: bool
    /** Whether the first-interaction listener is on the document. */
    var registered: bool
    var volume: real
    /** Whether the first `play()` has been issued and not yet settled. */
    var initialPlayPending: bool
    var calls: seq<AudioCall>

    /** Without an element nothing ever happens; before activation the
        volume is untouched and no first playback is in flight; after it the
        volume is the activation volume. */
    ghost predicate Valid()
      reads this
    {
      (!hasAudio ==> !isLoaded && !isPlaying && calls == []) &&
      (!isLoaded ==> volume == DefaultVolume && !initialPlayPending) &&
      (isLoaded ==> volume == ActivationVolume)
    }

    /** Mounting: both flags start false and the effect registers the
        first-interaction listener. */
    constructor (audioSrc: Option<string>, audioPresent: bool)
      ensures Valid()
      ensures hasAudio == audioPresent && source == MusicSource(audioSrc)
      ensures !isPlaying && !isLoaded && registered
      ensures volume == DefaultVolume && !initialPlayPending && calls == []
    {
      hasAudio := audioPresent;
      source := MusicSource(audioSrc);
      isPlaying := false;
      isLoaded := false;
      registered := true;
      volume := DefaultVolume;
      initialPlayPending := false;
      calls := [];
    }

    /** A click anywhere in the document. If the listener is on, it
        activates only when not yet loaded and an element exists (volume to
        0.3, first `play()`), and it removes itself in every case. Setting
        `isLoaded` re-runs the effect, which puts a fresh listener on; that
        one finds `isLoaded` true and only removes itself. */
    method DocumentClick() returns (activated: bool)
      requires Valid()
      modifies this
      ensures Valid()
      ensures activated == (old(registered) && !old(isLoaded) && hasAudio)
      ensures isLoaded == (old(isLoaded) || activated)
      ensures volume == if activated then ActivationVolume else old(volume)
      ensures calls == if activated then old(calls) + [SetVolume(ActivationVolume), Play] else old(calls)
      ensures initialPlayPending == (old(initialPlayPending) || activated)
      ensures registered == activated
      ensures isPlaying == old(isPlaying)
    {
      activated := false;
      if registered {
        if !isLoaded && hasAudio {
          isLoaded := true;
          volume := ActivationVolume;
          calls := calls + [SetVolume(ActivationVolume), Play];
          initialPlayPending := true;
          activated := true;
        }
        registered := false;
        if activated {
          registered := true;
        }
      }
    }

    /** The first `play()` settles: `then` marks playing, `catch` logs the
        error and marks not playing; nothing is thrown. */
    method PlayResolved(ok: bool)
      requires Valid() && initialPlayPending
      modifies this
      ensures Valid()
      ensures isPlaying == ok && !initialPlayPending
      ensures calls == if ok then old(calls) else old(calls) + [LogError]
      ensures isLoaded == old(isLoaded) && registered == old(registered) && volume == old(volume)
    {
      isPlaying := ok;
      initialPlayPending := false;
      if !ok {
        calls := calls + [LogError];
      }
    }

    /** The toggle button. Without an element it does nothing; otherwise it
        pauses or starts playback and flips `isPlaying` at once, whatever
        the later outcome of `play()`. */
    method TogglePlay()
      requires Valid()
      modifies this
      ensures Valid()
      ensures !hasAudio ==> isPlaying == old(isPlaying) && calls == old(calls)
      ensures hasAudio ==> isPlaying == !old(isPlaying)
      ensures hasAudio ==> calls == old(calls) + [if old(isPlaying) then Pause else Play]
      ensures isLoaded == old(isLoaded) && registered == old(registered)
      ensures volume == old(volume) && initialPlayPending == old(initialPlayPending)
    {
      if !hasAudio {
        return;
      }
      if isPlaying {
        calls := calls + [Pause];
      } else {
        calls := calls + [Play];
      }
      isPlaying := !isPlaying;
    }

    /** Unmounting: the effect's cleanup takes the listener off. */
    method Unmount()
      requires Valid()
      modifies this`registered
      ensures Valid() && !registered
    {
      registered := false;
    }
  }

  /** Toggling twice restores the playing flag and leaves the gate alone. */
  method ToggleTwice(p: MusicPlayer)
    requires p.Valid()
    modifies p
    ensures p.Valid() && p.isPlaying == old(p.isPlaying)
    ensures p.isLoaded == old(p.isLoaded) && p.registered == old(p.registered)
  {
    p.TogglePlay();
    p.TogglePlay();
  }

  /** From mount, two clicks activate once: the second click neither resets
      the volume nor issues another first `play()`, and afterwards the
      listener is gone. */
  method FirstClickOnly(audioSrc: Option<string>) returns (p: MusicPlayer)
    ensures p.Valid() && p.isLoaded && !p.registered && !p.isPlaying
    ensures p.volume == ActivationVolume && p.initialPlayPending
    ensures p.calls == [SetVolume(ActivationVolume), Play]
  {
    p := new MusicPlayer(audioSrc, true);
    var first := p.DocumentClick();
    assert first;
    var second := p.DocumentClick();
    assert !second;
  }

  /** Without an audio element the first click activates nothing, but the
      listener still removes itself, so later clicks cannot activate either. */
  method NoAudioNeverActivates(audioSrc: Option<string>) returns (p: MusicPlayer)
    ensures p.Valid() && !p.isLoaded && !p.registered && !p.isPlaying && p.calls == []
  {
    p := new MusicPlayer(audioSrc, false);
    var first := p.DocumentClick();
    var second := p.DocumentClick();
    assert !first && !second;
  }
}
