/**
 * The audio player component, `src/components/AudioPlayer.tsx`: the loaded sound, the
 * play/pause state and the progress fields fed by the player's status callback. Creating a
 * sound and the status reports are inputs; pausing and playing are returned as commands.
 */
module AudioPlayer {
  import opened Common

  /** The fields of a status report the callback reads; a missing number is `None`. */
  datatype PlaybackStatus = PlaybackStatus(
    isLoaded: bool,
    durationMillis: Option<int>,
    positionMillis: Option<int>,
    isPlaying: bool,
    didJustFinish: bool)

  /** `value || 0` on an optional number (a present zero also gives zero). */
  function OrZero(value: Option<int>): (r: int)
    ensures value.Some? ==> r == value.value
    ensures value.None? ==> r == 0
  {
    if value.Some? then value.value else 0
  }

  /** The progress fields: playing flag, duration and position in milliseconds. */
  datatype Progress = Progress(isPlaying: bool, duration: int, position: int)

  /** `onPlaybackStatusUpdate` on the progress fields. */
  function StatusUpdate(p: Progress, status: PlaybackStatus): Progress
  {
    if !status.isLoaded then p
    else if status.didJustFinish then Progress(false, OrZero(status.durationMillis), 0)
    else Progress(status.isPlaying, OrZero(status.durationMillis), OrZero(status.positionMillis))
  }

  /**
   * A report of an unloaded sound changes nothing. A loaded one overwrites all three fields,
   * so the result does not depend on the fields before it; a finished one stops playback and
   * rewinds the position to zero.
   */
  lemma StatusUpdateSpec(p: Progress, q: Progress, status: PlaybackStatus)
    ensures !status.isLoaded ==> StatusUpdate(p, status) == p
    ensures status.isLoaded ==> StatusUpdate(p, status) == StatusUpdate(q, status)
    ensures status.isLoaded ==> StatusUpdate(p, status).duration == OrZero(status.durationMillis)
    ensures status.isLoaded && status.didJustFinish ==>
              !StatusUpdate(p, status).isPlaying && StatusUpdate(p, status).position == 0
    ensures status.isLoaded && !status.didJustFinish ==>
              StatusUpdate(p, status).isPlaying == status.isPlaying &&
              StatusUpdate(p, status).position == OrZero(status.positionMillis)
  {
  }

  /** Delivering the same report twice leaves the fields as delivering it once. */
  lemma StatusUpdateIdempotent(p: Progress, status: PlaybackStatus)
    ensures StatusUpdate(StatusUpdate(p, status), status) == StatusUpdate(p, status)
  {
  }

  /** What pressing the play button asks of the sound. */
  datatype PlaybackCommand = NoCommand | Pause(sound: SoundHandle) | Play(sound: SoundHandle)

  /** `togglePlayback`: nothing without a sound, else pause a playing sound or play a paused one. */
  function ToggleCommand(sound: Option<SoundHandle>, isPlaying: bool): (r: PlaybackCommand)
    ensures r.NoCommand? <==> sound.None?
    ensures r.Pause? <==> sound.Some? && isPlaying
    ensures r.Play? <==> sound.Some? && !isPlaying
    ensures !r.NoCommand? ==> r.sound == sound.value
  {
    if sound.None? then NoCommand
    else if isPlaying then Pause(sound.value)
    else Play(sound.value)
  }

  class AudioPlayerState {
    var sound: Option<SoundHandle>
    var isPlaying: bool
    var duration: int
    var position: int
    var loading: bool

    constructor ()
      ensures sound == None && !isPlaying && duration == 0 && position == 0 && !loading
    {
      sound := None;
      isPlaying := false;
      duration := 0;
      position := 0;
      loading := false;
    }

    /**
     * `loadAudio`: the current sound, if any, is returned to be unloaded; a created sound
     * replaces it, and a failed creation keeps the old reference. Loading ends either way.
     */
    method LoadAudio(created: Option<SoundHandle>) returns (unloaded: Option<SoundHandle>)
      modifies this
      ensures unloaded == old(sound)
      ensures created.Some? ==> sound == created
      ensures created.None? ==> sound == old(sound)
      ensures !loading
      ensures isPlaying == old(isPlaying) && duration == old(duration) && position == old(position)
    {
      unloaded := sound;
      loading := true;
      if created.Some? {
        sound := created;
      }
      loading := false;
    }

    /** `onPlaybackStatusUpdate(status)`: the progress fields follow the report; the result says whether `onComplete` is called. */
    method OnPlaybackStatusUpdate(status: PlaybackStatus, hasOnComplete: bool) returns (completeCalled: bool)
      modifies this
      ensures Progress(isPlaying, duration, position) ==
              StatusUpdate(Progress(old(isPlaying), old(duration), old(position)), status)
      ensures completeCalled <==> status.isLoaded && status.didJustFinish && hasOnComplete
      ensures sound == old(sound) && loading == old(loading)
    {
      completeCalled := false;
      if status.isLoaded {
        duration := OrZero(status.durationMillis);
        position := OrZero(status.positionMillis);
        isPlaying := status.isPlaying;
        if status.didJustFinish {
          isPlaying := false;
          position := 0;
          if hasOnComplete {
            completeCalled := true;
          }
        }
      }
    }

    /** `togglePlayback` on the current state; the playing flag itself changes only through status reports. */
    method TogglePlayback() returns (command: PlaybackCommand)
      ensures command == ToggleCommand(sound, isPlaying)
    {
      if sound.None? {
        return NoCommand;
      }
      if isPlaying {
        command := Pause(sound.value);
      } else {
        command := Play(sound.value);
      }
    }
  }
}
