/**
 * The calming-sounds player: a fixed catalog of four tracks, the track
 * that is current (if any), whether it is playing and whether the sound is
 * muted.  The audio element itself is left out.
 */
module MusicTracks {
  import opened Wrappers

  /** The names in `calmTracks`, in catalog order. */
  const Catalog: seq<string> := ["Rain Sounds", "Ocean Waves", "Forest Birds", "Tibetan Bowls"]

  /** The three pieces of player state. */
  datatype Player = Player(current: Option<nat>, playing: bool, muted: bool)

  /** A current track is a catalog position, and only a current track can play. */
  predicate Good(p: Player)
  {
    (p.current.Some? ==> p.current.value < |Catalog|) && (p.playing ==> p.current.Some?)
  }

  /** The player as the component first renders it. */
  const Initial: Player := Player(None, false, false)

  /**
   * `playTrack(index)`: the track that is current and playing is paused;
   * any other choice (another track, or the current one while paused)
   * becomes current and plays.
   */
  function Played(p: Player, index: nat): (r: Player)
    ensures r.current == Some(index) && r.muted == p.muted
    ensures r.playing <==> !(p.current == Some(index) && p.playing)
  {
    if p.current == Some(index) && p.playing then p.(playing := false)
    else Player(Some(index), true, p.muted)
  }

  /** `toggleMute`: only the mute flag flips. */
  function Muted(p: Player): (r: Player)
    ensures r.muted == !p.muted && r.current == p.current && r.playing == p.playing
  {
    p.(muted := !p.muted)
  }

  /** The player starts in a good state, and every button keeps it good. */
  lemma PlayerStaysGood(p: Player, index: nat)
    requires Good(p) && index < |Catalog|
    ensures Good(Initial)
    ensures Good(Played(p, index)) && Good(Muted(p))
  {
  }

  /** Two mute toggles restore the player. */
  lemma MuteTwice(p: Player)
    ensures Muted(Muted(p)) == p
  {
  }

  /** Pressing the same track twice toggles it: a playing track ends up playing again, a paused one paused. */
  lemma PlayTwice(p: Player, index: nat)
    ensures Played(Played(p, index), index).playing == (p.current == Some(index) && p.playing)
    ensures p.current == Some(index) && p.playing ==> Played(Played(p, index), index) == p
  {
  }

  class TrackPlayer {
    var currentTrack: Option<nat>
    var isPlaying: bool
    var isMuted: bool

    function State(): Player
      reads this
    {
      Player(currentTrack, isPlaying, isMuted)
    }

    constructor()
      ensures State() == Initial
    {
      currentTrack, isPlaying, isMuted := None, false, false;
    }

    /** `playTrack`, called with a catalog position. */
    method PlayTrack(index: nat)
      requires Good(State()) && index < |Catalog|
      modifies this
      ensures Good(State())
      ensures State() == Played(old(State()), index)
    {
      if currentTrack == Some(index) && isPlaying {
        isPlaying := false;
      } else {
        if currentTrack != Some(index) {
          currentTrack := Some(index);
        }
        isPlaying := true;
      }
    }

    /** `toggleMute`. */
    method ToggleMute()
      requires Good(State())
      modifies this
      ensures Good(State())
      ensures State() == Muted(old(State()))
    {
      isMuted := !isMuted;
    }
  }
}
