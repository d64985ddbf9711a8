/** The playback page (src/app/playlist/page.tsx): a list of songs with a
    current index that steps forward and back around the list, a play/pause
    toggle, an avatar style that cycles, and an override pick. */
module Player {
  import opened Wrappers
  import opened JsText
  import opened Songs

  /** `(musicIndex + 1) % musicAPI.length`; NaN stays NaN, and an empty list
      gives NaN. */
  function NextIndex(i: Option<int>, n: int): (r: Option<int>)
    ensures n > 0 && i.Some? && 0 <= i.value < n ==> r.Some? && 0 <= r.value < n
    ensures n == 0 ==> r.None?
  {
    if i.None? then None else JsRem(i.value + 1, n)
  }

  /** `(musicIndex - 1 + musicAPI.length) % musicAPI.length`. */
  function PrevIndex(i: Option<int>, n: int): (r: Option<int>)
    ensures n > 0 && i.Some? && 0 <= i.value < n ==> r.Some? && 0 <= r.value < n
    ensures n == 0 ==> r.None?
  {
    if i.None? then None else JsRem(i.value - 1 + n, n)
  }

  /** Next and previous undo each other on every index of a non-empty list. */
  lemma NextPrevInverse(i: int, n: int)
    requires 0 <= i < n
    ensures PrevIndex(NextIndex(Some(i), n), n) == Some(i)
    ensures NextIndex(PrevIndex(Some(i), n), n) == Some(i)
  {
    RemBelowTwice(i + 1, n);
    RemBelowTwice(i - 1 + n, n);
    var next := if i + 1 < n then i + 1 else 0;
    var prev := if i > 0 then i - 1 else n - 1;
    RemBelowTwice(next - 1 + n, n);
    RemBelowTwice(prev + 1, n);
  }

  /** Next from the last song is the first, previous from the first is the
      last, and with one song both stay put. */
  lemma IndexWrapsAround(n: int)
    requires n > 0
    ensures NextIndex(Some(n - 1), n) == Some(0)
    ensures PrevIndex(Some(0), n) == Some(n - 1)
    ensures n == 1 ==> NextIndex(Some(0), 1) == Some(0) && PrevIndex(Some(0), 1) == Some(0)
  {
    RemBelowTwice(n - 1 + 1, n);
    RemBelowTwice(0 - 1 + n, n);
  }

  /** The three avatar styles the avatar button cycles through. */
  const AVATAR_CLASSES: seq<string> := ["object-cover", "object-contain", "none"]

  /** `(prev + 1) % avatarClass.length`. */
  function NextAvatarClass(k: int): (r: int)
    ensures 0 <= k < |AVATAR_CLASSES| ==> 0 <= r < |AVATAR_CLASSES| && r != k
  {
    (k + 1) % |AVATAR_CLASSES|
  }

  /** Three presses bring the avatar style back to where it was. */
  lemma AvatarCycle(k: int)
    requires 0 <= k < |AVATAR_CLASSES|
    ensures NextAvatarClass(NextAvatarClass(NextAvatarClass(k))) == k
    ensures NextAvatarClass(k) == k + 1 || (k == |AVATAR_CLASSES| - 1 && NextAvatarClass(k) == 0)
  {
  }

  /** `musicAPI[index]`: undefined (None) for NaN or an index off the list. */
  function SongAt(list: seq<Song>, i: Option<int>): (r: Option<Song>)
    ensures r.Some? <==> i.Some? && 0 <= i.value < |list|
    ensures r.Some? ==> r.value in list
  {
    if i.Some? && 0 <= i.value < |list| then Some(list[i.value]) else None
  }

  /** The page's `<audio>` element, when it is mounted. */
  datatype AudioElement = Unmounted | Mounted(src: string, paused: bool)

  const SERVER_ORIGIN: string := "http://localhost:5000"

  const PLACEHOLDER_SONG: Song := Song("", "", "", "/images/profiles.png")

  class PlaylistPage {
    var musicList: seq<Song>
    var current: Song
    var musicIndex: Option<int>
    var isAudioPlaying: bool
    var audio: AudioElement
    var avatarClassIndex: int
    var isModalOpen: bool
    var isOverrideMode: bool

    ghost predicate Valid()
      reads this
    {
      0 <= avatarClassIndex < |AVATAR_CLASSES|
    }

    constructor (audio: AudioElement)
      ensures Valid()
      ensures musicList == [] && current == PLACEHOLDER_SONG && musicIndex == Some(0)
      ensures !isAudioPlaying && this.audio == audio && avatarClassIndex == 0
      ensures !isModalOpen && !isOverrideMode
    {
      musicList, current, musicIndex := [], PLACEHOLDER_SONG, Some(0);
      isAudioPlaying, this.audio, avatarClassIndex := false, audio, 0;
      isModalOpen, isOverrideMode := false, false;
    }

    /** The fetch effect: keep the list and, when it is not empty, show its
        first song and point the audio element at it. The page never marks a
        scheduled playlist as playing, so this always applies. */
    method LoadSongs(list: seq<Song>)
      requires Valid()
      modifies this`musicList, this`current, this`audio
      ensures Valid()
      ensures musicList == list
      ensures list == [] ==> current == old(current) && audio == old(audio)
      ensures list != [] ==> current == list[0]
      ensures list != [] ==>
        audio == (if old(audio).Mounted? then old(audio).(src := SERVER_ORIGIN + list[0].src) else Unmounted)
    {
      musicList := list;
      if |list| > 0 {
        current := list[0];
        if audio.Mounted? {
          audio := audio.(src := SERVER_ORIGIN + list[0].src);
        }
      }
    }

    /** `updateCurrentMusicDetails(index)`: nothing happens when the index has
        no song; otherwise the song becomes current and, with an audio element,
        is loaded and played. */
    method UpdateCurrentMusicDetails(index: Option<int>)
      requires Valid()
      modifies this`current, this`audio, this`isAudioPlaying
      ensures Valid()
      ensures SongAt(musicList, index).None? ==>
        current == old(current) && audio == old(audio) && isAudioPlaying == old(isAudioPlaying)
      ensures SongAt(musicList, index).Some? ==> current == SongAt(musicList, index).value
      ensures SongAt(musicList, index).Some? && old(audio).Mounted? ==>
        audio == Mounted(SERVER_ORIGIN + current.src, false) && isAudioPlaying
      ensures SongAt(musicList, index).Some? && old(audio).Unmounted? ==>
        audio == Unmounted && isAudioPlaying == old(isAudioPlaying)
    {
      var music := SongAt(musicList, index);
      if music.None? {
        return;
      }
      current := music.value;
      if audio.Mounted? {
        audio := Mounted(SERVER_ORIGIN + music.value.src, false);
        isAudioPlaying := true;
      }
    }

    /** `handleNextSong`, also run when a track ends. */
    method HandleNextSong()
      requires Valid()
      modifies this`musicIndex, this`current, this`audio, this`isAudioPlaying
      ensures Valid()
      ensures musicIndex == NextIndex(old(musicIndex), |musicList|)
      ensures SongAt(musicList, musicIndex).None? ==>
        current == old(current) && audio == old(audio) && isAudioPlaying == old(isAudioPlaying)
      ensures SongAt(musicList, musicIndex).Some? ==> current == SongAt(musicList, musicIndex).value
      ensures SongAt(musicList, musicIndex).Some? && old(audio).Mounted? ==>
        audio == Mounted(SERVER_ORIGIN + current.src, false) && isAudioPlaying
      ensures SongAt(musicList, musicIndex).Some? && old(audio).Unmounted? ==>
        audio == Unmounted && isAudioPlaying == old(isAudioPlaying)
    {
      var next := NextIndex(musicIndex, |musicList|);
      musicIndex := next;
      UpdateCurrentMusicDetails(next);
    }

    /** `handlePrevSong`. */
    method HandlePrevSong()
      requires Valid()
      modifies this`musicIndex, this`current, this`audio, this`isAudioPlaying
      ensures Valid()
      ensures musicIndex == PrevIndex(old(musicIndex), |musicList|)
      ensures SongAt(musicList, musicIndex).None? ==>
        current == old(current) && audio == old(audio) && isAudioPlaying == old(isAudioPlaying)
      ensures SongAt(musicList, musicIndex).Some? ==> current == SongAt(musicList, musicIndex).value
      ensures SongAt(musicList, musicIndex).Some? && old(audio).Mounted? ==>
        audio == Mounted(SERVER_ORIGIN + current.src, false) && isAudioPlaying
      ensures SongAt(musicList, musicIndex).Some? && old(audio).Unmounted? ==>
        audio == Unmounted && isAudioPlaying == old(isAudioPlaying)
    {
      var prev := PrevIndex(musicIndex, |musicList|);
      musicIndex := prev;
      UpdateCurrentMusicDetails(prev);
    }

    /** `handleAvatar`. */
    method HandleAvatar()
      requires Valid()
      modifies this`avatarClassIndex
      ensures Valid()
      ensures avatarClassIndex == NextAvatarClass(old(avatarClassIndex))
    {
      avatarClassIndex := NextAvatarClass(avatarClassIndex);
    }

    /** `handleAudioPlay`: play when paused, pause otherwise; without an audio
        element nothing happens. */
    method HandleAudioPlay()
      requires Valid()
      modifies this`audio, this`isAudioPlaying
      ensures Valid()
      ensures old(audio).Unmounted? ==> audio == old(audio) && isAudioPlaying == old(isAudioPlaying)
      ensures old(audio).Mounted? ==>
        isAudioPlaying == old(audio).paused && audio == old(audio).(paused := !old(audio).paused)
    {
      if audio.Unmounted? {
        return;
      }
      if audio.paused {
        audio := audio.(paused := false);
        isAudioPlaying := true;
      } else {
        audio := audio.(paused := true);
        isAudioPlaying := false;
      }
    }

    /** The "Override Music" button opens the picker. */
    method OpenOverrideModal()
      modifies this`isModalOpen
      ensures isModalOpen
    {
      isModalOpen := true;
    }

    /** Picking a song in the override dialog makes it current, enters
        override mode and closes the dialog. */
    method PickOverride(song: Song)
      requires Valid()
      modifies this`current, this`isOverrideMode, this`isModalOpen
      ensures Valid()
      ensures current == song && isOverrideMode && !isModalOpen
    {
      current := song;
      isOverrideMode := true;
      isModalOpen := false;
    }
  }
}
