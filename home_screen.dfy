/**
 * The title click machine of the home screen. A click runs `handleClick`; when the click
 * changes the title, the `[title]` effect then runs on the new title. The end of the beam
 * animation is a separate event.
 */
module HomeScreen {

  const Expired := "\U{274C} Expired \U{274C}"
  const Waste := "\U{274C} Waste \U{274C}"
  const SaveBite := "\U{1F33F}SaveBite"

  /** The screen's state: `title`, `clickCount`, `showCahaya` (the beam) and `isSaveBiteClicked` (the lock). */
  datatype Screen = Screen(title: string, clickCount: int, showCahaya: bool, locked: bool)

  const Initial := Screen(Expired, 0, false, false)

  /** `handleClick`: nothing once locked; otherwise the title follows the count, and the count advances modulo 3. */
  function HandleClick(s: Screen): (r: Screen)
    ensures s.locked ==> r == s
    ensures !s.locked ==> r.clickCount == (s.clickCount + 1) % 3 && r.locked == s.locked
    ensures !s.locked && s.clickCount == 0 ==> r.title == Waste && r.showCahaya == s.showCahaya
    ensures !s.locked && s.clickCount == 1 ==> r.title == SaveBite && r.showCahaya == s.showCahaya
    ensures !s.locked && s.clickCount != 0 && s.clickCount != 1 ==> r.title == Expired && !r.showCahaya
  {
    if s.locked then s
    else if s.clickCount == 0 then s.(title := Waste, clickCount := (s.clickCount + 1) % 3)
    else if s.clickCount == 1 then s.(title := SaveBite, clickCount := (s.clickCount + 1) % 3)
    else s.(title := Expired, showCahaya := false, clickCount := (s.clickCount + 1) % 3)
  }

  /** The `[title]` effect: the SaveBite title sets the lock and shows the beam. */
  function TitleEffect(s: Screen): (r: Screen)
    ensures s.title == SaveBite ==> r == s.(locked := true, showCahaya := true)
    ensures s.title != SaveBite ==> r == s
  {
    if s.title == SaveBite then s.(locked := true, showCahaya := true) else s
  }

  /** One click as the user sees it: the handler, then the effect when the title changed. */
  function Click(s: Screen): Screen {
    var h := HandleClick(s);
    if h.title != s.title then TitleEffect(h) else h
  }

  /** The beam animation's completion callback. */
  function BeamDone(s: Screen): Screen {
    s.(showCahaya := false)
  }

  /**
   * The states the screen can reach: the count names the title, and the SaveBite title
   * comes with the lock; the beam shows only once locked.
   */
  predicate Valid(s: Screen) {
    && 0 <= s.clickCount < 3
    && (s.clickCount == 0 ==> s.title == Expired && !s.locked)
    && (s.clickCount == 1 ==> s.title == Waste && !s.locked)
    && (s.clickCount == 2 ==> s.title == SaveBite && s.locked)
    && (s.showCahaya ==> s.locked)
  }

  lemma InitialValid()
    ensures Valid(Initial)
  {
  }

  /** Both events keep the screen in a reachable state. */
  lemma EventsPreserveValid(s: Screen)
    requires Valid(s)
    ensures Valid(Click(s)) && Valid(BeamDone(s))
  {
  }

  /** The three titles in order: Waste after one click, SaveBite and the beam after two. */
  lemma TitleSequence()
    ensures Click(Initial) == Screen(Waste, 1, false, false)
    ensures Click(Click(Initial)) == Screen(SaveBite, 2, true, true)
  {
  }

  /** The lock never clears: once locked every click is a no-op. */
  lemma LockIsPermanent(s: Screen)
    requires s.locked
    ensures Click(s) == s && BeamDone(s).locked
  {
  }

  /** `n` clicks from the initial state. */
  function Clicks(n: nat): Screen {
    if n == 0 then Initial else Click(Clicks(n - 1))
  }

  /** Every state reached by clicking is valid, so the reset branch (count 2, unlocked) never runs. */
  lemma {:induction false} ClicksStayValid(n: nat)
    ensures Valid(Clicks(n))
    ensures !(Clicks(n).clickCount == 2 && !Clicks(n).locked)
  {
    if n > 0 {
      ClicksStayValid(n - 1);
      EventsPreserveValid(Clicks(n - 1));
    }
  }

  /** From the second click on, the title is SaveBite and stays so. */
  lemma {:induction false} SaveBiteSticks(n: nat)
    requires n >= 2
    ensures Clicks(n) == Screen(SaveBite, 2, true, true)
  {
    if n > 2 {
      SaveBiteSticks(n - 1);
    } else {
      TitleSequence();
    }
  }

  /** The screen component: its four pieces of state as fields. */
  class HomeScreenState {
    var title: string
    var clickCount: int
    var showCahaya: bool
    var isSaveBiteClicked: bool

    function State(): Screen
      reads this
    {
      Screen(title, clickCount, showCahaya, isSaveBiteClicked)
    }

    constructor ()
      ensures State() == Initial && Valid(State())
    {
      title := Expired;
      clickCount := 0;
      showCahaya := false;
      isSaveBiteClicked := false;
    }

    /** A press on the title. */
    method OnClick()
      modifies this
      ensures State() == Click(old(State()))
      ensures old(Valid(State())) ==> Valid(State())
    {
      if isSaveBiteClicked {
        return;
      }
      ghost var start := State();
      var before := title;
      if clickCount == 0 {
        title := Waste;
      } else if clickCount == 1 {
        title := SaveBite;
      } else {
        title := Expired;
        showCahaya := false;
      }
      clickCount := (clickCount + 1) % 3;
      if title != before && title == SaveBite {
        isSaveBiteClicked := true;
        showCahaya := true;
      }
      if old(Valid(State())) {
        EventsPreserveValid(start);
      }
    }

    /** The beam animation has finished. */
    method OnBeamDone()
      modifies this
      ensures State() == BeamDone(old(State()))
      ensures old(Valid(State())) ==> Valid(State())
    {
      showCahaya := false;
      if old(Valid(State())) {
        EventsPreserveValid(old(State()));
      }
    }
  }
}
