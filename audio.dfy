/** `SimpleAudioPlayer` (scripts/audio-player.js): the music toggle. Its
    state is the two flags, the text of the music icon, the title of the
    audio control and the number of `audio.play()` requests whose promise
    has not settled yet. The audio element is not modelled: a play request
    is counted, and how it ends is the input of `SettlePlay`; the `play`
    and `pause` events the element fires are inputs too. */
module AudioState {

  const Speaker := "\U{1F50A}"
  const Muted := "\U{1F507}"
  const Broken := "\U{274C}"
  const ClickToPlay := "Klik untuk memutar musik"
  const FileMissing := "File musik tidak ditemukan"
  const NotAllowed := "NotAllowedError"

  /** How a play request's promise settles: resolved, or rejected with an
      error of the given name. */
  datatype PlayOutcome = Started | Failed(errorName: string)

  datatype Player = Player(isPlaying: bool, userHasInteracted: bool, icon: string,
                           title: string, pendingPlays: nat)

  /** `playMusic`: asks the element to play; nothing else changes until the
      request settles. */
  function PlayMusic(p: Player): Player {
    p.(pendingPlays := p.pendingPlays + 1)
  }

  /** `handlePlayError`: only a blocked autoplay is shown to the user. */
  function HandlePlayError(p: Player, errorName: string): Player {
    if errorName == NotAllowed then p.(icon := Muted, title := ClickToPlay) else p
  }

  /** The continuation of one play request of `playMusic`. */
  function SettlePlay(p: Player, outcome: PlayOutcome): Player
    requires p.pendingPlays > 0
  {
    var q := p.(pendingPlays := p.pendingPlays - 1);
    match outcome
    case Started => q.(isPlaying := true, icon := Speaker)
    case Failed(name) => HandlePlayError(q, name)
  }

  /** `pauseMusic`. */
  function PauseMusic(p: Player): Player {
    p.(isPlaying := false, icon := Muted)
  }

  /** `toggleMusic`, the click handler of the audio control. */
  function ToggleMusic(p: Player): Player {
    if !p.userHasInteracted then PlayMusic(p.(userHasInteracted := true))
    else if p.isPlaying then PauseMusic(p)
    else PlayMusic(p)
  }

  /** `playFromButton`, called by the "Buka Undangan" button. */
  function PlayFromButton(p: Player): Player {
    PlayMusic(p.(userHasInteracted := true))
  }

  /** The `play` event listener. */
  function OnPlay(p: Player): Player {
    p.(isPlaying := true, icon := Speaker)
  }

  /** The `pause` event listener. */
  function OnPause(p: Player): Player {
    p.(isPlaying := false, icon := Muted)
  }

  /** `handleAudioError`, the `error` event listener (the delayed alert is
      not modelled). */
  function HandleAudioError(p: Player): Player {
    p.(icon := Broken, title := FileMissing)
  }

  /** The first toggle marks the user as having interacted and asks for
      playback, whatever the playing flag says; it is the same as the
      button. */
  lemma FirstToggleRequestsPlay(p: Player)
    requires !p.userHasInteracted
    ensures var r := ToggleMusic(p);
      r.userHasInteracted && r.pendingPlays == p.pendingPlays + 1
      && r.isPlaying == p.isPlaying && r.icon == p.icon && r.title == p.title
    ensures ToggleMusic(p) == PlayFromButton(p)
  {
  }

  /** After the first interaction, a toggle while playing pauses and asks for
      nothing; a toggle while not playing asks for playback. */
  lemma LaterToggle(p: Player)
    requires p.userHasInteracted
    ensures var r := ToggleMusic(p);
      r.userHasInteracted
      && (p.isPlaying ==> !r.isPlaying && r.icon == Muted && r.pendingPlays == p.pendingPlays)
      && (!p.isPlaying ==> r == p.(pendingPlays := p.pendingPlays + 1))
  {
  }

  /** The button always leaves the user marked as having interacted and one
      more play request outstanding, and changes nothing that is shown. */
  lemma PlayFromButtonInteracts(p: Player)
    ensures var r := PlayFromButton(p);
      r.userHasInteracted && r.pendingPlays == p.pendingPlays + 1
      && r.isPlaying == p.isPlaying && r.icon == p.icon && r.title == p.title
  {
  }

  /** A resolved request sets the flag and the speaker icon; a rejected one
      leaves the flag alone, shows the muted icon and the hint only for a
      blocked autoplay, and otherwise changes nothing that is shown. */
  lemma PlayOutcomes(p: Player, outcome: PlayOutcome)
    requires p.pendingPlays > 0
    ensures var r := SettlePlay(p, outcome);
      r.pendingPlays == p.pendingPlays - 1 && r.userHasInteracted == p.userHasInteracted
      && (outcome.Started? ==> r.isPlaying && r.icon == Speaker && r.title == p.title)
      && (outcome.Failed? ==> r.isPlaying == p.isPlaying)
      && (outcome.Failed? && outcome.errorName == NotAllowed ==> r.icon == Muted && r.title == ClickToPlay)
      && (outcome.Failed? && outcome.errorName != NotAllowed ==> r.icon == p.icon && r.title == p.title)
  {
  }

  /** The element's events set the flag to match, with the matching icon. */
  lemma ListenersFollowElement(p: Player)
    ensures OnPlay(p).isPlaying && OnPlay(p).icon == Speaker
    ensures !OnPause(p).isPlaying && OnPause(p).icon == Muted
    ensures OnPause(p) == PauseMusic(p)
  {
  }

  /** A resolved request and the `play` event it causes agree, so the order
      in which the two run does not matter. */
  lemma PlayEventCommutes(p: Player)
    requires p.pendingPlays > 0
    ensures OnPlay(SettlePlay(p, Started)) == SettlePlay(OnPlay(p), Started)
    ensures OnPlay(SettlePlay(p, Started)) == SettlePlay(p, Started)
  {
  }

  /** Pausing the music with the control and resuming it with a second click
      gives back the playing state once the request resolves. */
  lemma PauseResume(p: Player)
    requires p.userHasInteracted && p.isPlaying && p.icon == Speaker
    ensures ToggleMusic(ToggleMusic(p)).pendingPlays == p.pendingPlays + 1
    ensures SettlePlay(ToggleMusic(ToggleMusic(p)), Started) == p
  {
  }
}

/** The player object. Each method changes the state as the function of
    the same name in AudioState says and nothing else. */
module AudioPlayer {
  import opened AudioState

  class SimpleAudioPlayer {
    var isPlaying: bool
    var userHasInteracted: bool
    var icon: string
    var title: string
    var pendingPlays: nat

    function Model(): Player
      reads this
    {
      Player(isPlaying, userHasInteracted, icon, title, pendingPlays)
    }

    /** The icon and title are whatever the page shows at start-up. */
    constructor(initialIcon: string, initialTitle: string)
      ensures Model() == Player(false, false, initialIcon, initialTitle, 0)
    {
      isPlaying := false;
      userHasInteracted := false;
      icon := initialIcon;
      title := initialTitle;
      pendingPlays := 0;
    }

    method PlayMusic()
      modifies this
      ensures Model() == AudioState.PlayMusic(old(Model()))
    {
      pendingPlays := pendingPlays + 1;
    }

    method SettlePlay(outcome: PlayOutcome)
      requires pendingPlays > 0
      modifies this
      ensures Model() == AudioState.SettlePlay(old(Model()), outcome)
    {
      pendingPlays := pendingPlays - 1;
      match outcome
      case Started =>
        isPlaying := true;
        icon := Speaker;
      case Failed(name) =>
        HandlePlayError(name);
    }

    method HandlePlayError(errorName: string)
      modifies this
      ensures Model() == AudioState.HandlePlayError(old(Model()), errorName)
    {
      if errorName == NotAllowed {
        icon := Muted;
        title := ClickToPlay;
      }
    }

    method PauseMusic()
      modifies this
      ensures Model() == AudioState.PauseMusic(old(Model()))
    {
      isPlaying := false;
      icon := Muted;
    }

    method ToggleMusic()
      modifies this
      ensures Model() == AudioState.ToggleMusic(old(Model()))
    {
      if !userHasInteracted {
        userHasInteracted := true;
        PlayMusic();
      } else {
        if isPlaying {
          PauseMusic();
        } else {
          PlayMusic();
        }
      }
    }

    method PlayFromButton()
      modifies this
      ensures Model() == AudioState.PlayFromButton(old(Model()))
    {
      userHasInteracted := true;
      PlayMusic();
    }

    method OnPlay()
      modifies this
      ensures Model() == AudioState.OnPlay(old(Model()))
    {
      isPlaying := true;
      icon := Speaker;
    }

    method OnPause()
      modifies this
      ensures Model() == AudioState.OnPause(old(Model()))
    {
      isPlaying := false;
      icon := Muted;
    }

    method HandleAudioError()
      modifies this
      ensures Model() == AudioState.HandleAudioError(old(Model()))
    {
      icon := Broken;
      title := FileMissing;
    }
  }
}
