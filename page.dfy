/**
 * The logical state the modal component drives, as a value: which modals are
 * on the page and wrapped, which wrappers carry the `opened` class, the shared
 * scroll lock, each modal's scroll offset, the open buttons, the YouTube
 * player table and the single API-ready slot. Each operation of the component
 * is a function from one state to the next; the class in `Modals` performs
 * the same updates in place and is proved to agree with these functions.
 */
module PageState {
  import opened Wrappers
  import opened Actions
  import opened YouTube

  /** What the model keeps of a `YT.Player`: whether it plays and where it stands. */
  datatype Player = Player(playing: bool, position: int)

  /** A fresh or rewound player: stopped at the start. */
  const STOPPED: Player := Player(false, 0)

  /**
   * An open button: the modal id in its `data-modal-open` attribute and
   * whether it carries a non-empty `data-modal-youtube` attribute.
   */
  datatype OpenButton = OpenButton(target: string, flagged: bool)

  datatype Page = Page(
    present: set<string>,          // ids of the modal elements in the section
    wrapped: set<string>,          // ids of modals `prepare` has wrapped
    youtube: set<string>,          // ids of modals flagged `data-modal-youtube="true"`
    openedIds: set<string>,        // ids whose wrapper has the `opened` class
    locked: bool,                  // the page scroll lock
    scrollTop: map<string, int>,   // each present modal's scroll offset
    buttons: seq<OpenButton>,      // the section's open buttons, in document order
    players: map<string, Player>,  // `youtube.players`, keyed by video id
    pending: Option<string>)       // the video id `onYouTubeIframeAPIReady` would create a player for

  /** How an operation ended: normally, or by throwing. */
  datatype Status = Done | Failed(fault: Fault)

  /** The state an operation leaves behind, and how it ended. */
  datatype Step = Step(page: Page, status: Status)

  /**
   * The shape every reachable state keeps. It is an invariant of reachability
   * only: the component assumes nothing about it, so no operation requires
   * it; the constructor establishes it and every operation preserves it.
   */
  predicate Consistent(p: Page) {
    && p.openedIds <= p.wrapped <= p.present
    && p.youtube <= p.present
    && p.scrollTop.Keys == p.present
  }

  // ---------------------------------------------------------------------------
  // Opening and closing
  // ---------------------------------------------------------------------------

  /** `prepare`'s wrapping of a modal. */
  function Wrap(p: Page, id: string): Page {
    p.(wrapped := p.wrapped + {id})
  }

  /**
   * `actions.open`: the wrapper around the modal with that id gets `opened`
   * (there is none for an id without a wrapped modal) and the page is locked.
   */
  function Open(p: Page, id: string): Page {
    p.(openedIds := if id in p.wrapped then p.openedIds + {id} else p.openedIds, locked := true)
  }

  /** `youtube.close`: stop the player of the video and seek it to 0; throws when there is none. */
  function StopAndRewind(p: Page, id: string): Step {
    var v := RemoveFirst(id, PREFIX);
    if v in p.players then Step(p.(players := p.players[v := STOPPED]), Done)
    else Step(p, Failed(MissingPlayer(v)))
  }

  /** The tail of `actions.close`: unlock the page and scroll the modal to the top. */
  function Unlock(p: Page, id: string): Page {
    p.(locked := false, scrollTop := if id in p.present then p.scrollTop[id := 0] else p.scrollTop)
  }

  /**
   * `actions.close`: remove `opened`, rewind the video of a YouTube modal,
   * then unlock and reset the scroll offset. When the video has no player the
   * call throws after the class is gone but before the unlock.
   */
  function Close(p: Page, id: string): Step {
    var q := p.(openedIds := p.openedIds - {id});
    if id in q.youtube then
      var s := StopAndRewind(q, id);
      if s.status.Failed? then s else Step(Unlock(s.page, id), Done)
    else Step(Unlock(q, id), Done)
  }

  /** `youtube.open`: play the video, then open the modal; throws when the video has no player. */
  function YouTubeOpen(p: Page, openStr: string): Step {
    var v := RemoveFirst(openStr, PREFIX);
    if v in p.players then Step(Open(p.(players := p.players[v := p.players[v].(playing := true)]), openStr), Done)
    else Step(p, Failed(MissingPlayer(v)))
  }

  /** The click handler of an open button. */
  function OpenButtonClick(p: Page, i: nat): Step
    requires i < |p.buttons|
  {
    var b := p.buttons[i];
    if b.flagged then YouTubeOpen(p, b.target) else Step(Open(p, b.target), Done)
  }

  /** What `handleBtnClick` does to the page once it has decided. */
  function Dispatch(p: Page, d: Decision): Step {
    match d
    case Skip => Step(p, Done)
    case Fail(f) => Step(p, Failed(f))
    case Handle(id, reaction) => if reaction == CloseOwner then Close(p, id) else Step(p, Done)
  }

  // ---------------------------------------------------------------------------
  // Video modals and the player table
  // ---------------------------------------------------------------------------

  /**
   * `appendModal`: point button `i` at the modal id of the video, add a
   * flagged modal with that id, and overwrite the API-ready slot with the video.
   */
  function AppendModal(p: Page, i: nat, url: string): Page
    requires i < |p.buttons|
  {
    var id := ModalIdFor(url);
    p.(buttons := p.buttons[i := p.buttons[i].(target := id)],
       present := p.present + {id},
       youtube := p.youtube + {id},
       scrollTop := if id in p.present then p.scrollTop else p.scrollTop[id := 0],
       pending := Some(VideoKey(url)))
  }

  /** One pass of `init`'s button loop: a button whose target is a YouTube URL is flagged and gets its modal. */
  function RegisterOpenButton(p: Page, i: nat): (r: Page)
    requires i < |p.buttons|
    ensures |r.buttons| == |p.buttons| && r.players == p.players
    ensures forall j :: 0 <= j < |p.buttons| && j != i ==> r.buttons[j] == p.buttons[j]
    ensures p.present <= r.present && p.youtube <= r.youtube
    ensures var url := p.buttons[i].target;
      IsYouTubeUrl(url) ==>
        && r.buttons[i] == OpenButton(ModalIdFor(url), true)
        && ModalIdFor(url) in r.present && ModalIdFor(url) in r.youtube
        && r.pending == Some(VideoKey(url))
  {
    var url := p.buttons[i].target;
    if IsYouTubeUrl(url) then AppendModal(p.(buttons := p.buttons[i := p.buttons[i].(flagged := true)]), i, url)
    else p
  }

  /** The API's ready callback: a new, stopped player for the video in the slot. */
  function ApiReady(p: Page): Page {
    match p.pending
    case None => p
    case Some(v) => p.(players := p.players[v := STOPPED])
  }

  /** A player's state-change event: `0` (ended) closes the video's modal. */
  function PlayerStateChange(p: Page, v: string, data: int): Step {
    if data == 0 then Close(p, PREFIX + v) else Step(p, Done)
  }

  /** What registering makes of a button: a YouTube URL becomes a flagged button for its video modal. */
  function Registered(b: OpenButton): OpenButton {
    if IsYouTubeUrl(b.target) then OpenButton(ModalIdFor(b.target), true) else b
  }

  /** `init`'s button loop over the first `n` buttons. */
  function RegisterButtons(p: Page, n: nat): (r: Page)
    requires n <= |p.buttons|
    ensures |r.buttons| == |p.buttons| && r.players == p.players
    ensures forall j :: n <= j < |p.buttons| ==> r.buttons[j] == p.buttons[j]
    ensures p.present <= r.present && p.youtube <= r.youtube
  {
    if n == 0 then p else RegisterOpenButton(RegisterButtons(p, n - 1), n - 1)
  }

  /** The video of the last of the first `n` buttons whose target is a YouTube URL. */
  function LastVideo(buttons: seq<OpenButton>, n: nat): Option<string>
    requires n <= |buttons|
  {
    if n == 0 then None
    else if IsYouTubeUrl(buttons[n - 1].target) then Some(VideoKey(buttons[n - 1].target))
    else LastVideo(buttons, n - 1)
  }

  // ---------------------------------------------------------------------------
  // Properties of opening and closing
  // ---------------------------------------------------------------------------

  /**
   * Opening sets the flag of a wrapped modal and the lock, touches no other
   * flag, and opening again changes nothing.
   */
  lemma OpenSetsFlagAndLock(p: Page, id: string)
    ensures var r := Open(p, id);
      && r.locked
      && (id in r.openedIds <==> id in p.openedIds || id in p.wrapped)
      && (forall o :: o != id ==> (o in r.openedIds <==> o in p.openedIds))
      && r.players == p.players && r.scrollTop == p.scrollTop
    ensures Open(Open(p, id), id) == Open(p, id)
  {
  }

  /**
   * Closing a modal that is not flagged YouTube clears its flag and the lock,
   * scrolls it to the top, touches no player and no other modal's flag.
   */
  lemma CloseOrdinary(p: Page, id: string)
    requires id !in p.youtube
    ensures var s := Close(p, id);
      && s.status == Done
      && s.page.openedIds == p.openedIds - {id}
      && !s.page.locked
      && (id in p.present ==> s.page.scrollTop == p.scrollTop[id := 0])
      && s.page.players == p.players
  {
  }

  /**
   * Closing a YouTube modal whose video has a player also stops that player
   * and moves it to position 0; every other player stays as it was.
   */
  lemma CloseVideo(p: Page, id: string)
    requires id in p.youtube && RemoveFirst(id, PREFIX) in p.players
    ensures var s := Close(p, id); var v := RemoveFirst(id, PREFIX);
      && s.status == Done
      && s.page.openedIds == p.openedIds - {id}
      && !s.page.locked
      && s.page.players[v] == Player(false, 0)
      && (forall w :: w in p.players && w != v ==> w in s.page.players && s.page.players[w] == p.players[w])
      && s.page.players.Keys == p.players.Keys
  {
  }

  /**
   * Closing a YouTube modal whose video has no player throws after the
   * `opened` class is removed: the page stays locked and the offset is kept.
   */
  lemma CloseVideoWithoutPlayer(p: Page, id: string)
    requires id in p.youtube && RemoveFirst(id, PREFIX) !in p.players
    ensures var s := Close(p, id);
      && s.status == Failed(MissingPlayer(RemoveFirst(id, PREFIX)))
      && s.page == p.(openedIds := p.openedIds - {id})
  {
  }

  /** A close that completes leaves a state that closing again does not change. */
  lemma CloseIdempotent(p: Page, id: string)
    requires Close(p, id).status == Done
    ensures Close(Close(p, id).page, id) == Close(p, id)
  {
  }

  /**
   * The lock is one flag: with two wrapped modals open, closing one of them
   * unlocks the page although the other is still open.
   */
  lemma SharedLockReleasedEarly(p: Page, a: string, b: string)
    requires a != b && a in p.wrapped && b in p.wrapped && b !in p.youtube
    ensures var s := Close(Open(Open(p, a), b), b);
      s.status == Done && a in s.page.openedIds && !s.page.locked
  {
  }

  /** Opening then closing an ordinary modal leaves it closed and the page unlocked, whatever the lock was. */
  lemma OpenThenClose(p: Page, id: string)
    requires id !in p.youtube
    ensures var s := Close(Open(p, id), id);
      s.status == Done && id !in s.page.openedIds && !s.page.locked
      && (forall o :: o != id ==> (o in s.page.openedIds <==> o in p.openedIds))
  {
  }

  /** Wrapping a present modal, opening and closing keep the state consistent. */
  lemma OpenCloseKeepConsistent(p: Page, id: string)
    requires Consistent(p)
    ensures id in p.present ==> Consistent(Wrap(p, id))
    ensures Consistent(Open(p, id))
    ensures Consistent(Close(p, id).page)
    ensures Consistent(YouTubeOpen(p, id).page)
  {
  }

  /** Appending a video modal keeps the state consistent. */
  lemma AppendKeepsConsistent(p: Page, i: nat, url: string)
    requires Consistent(p) && i < |p.buttons|
    ensures Consistent(AppendModal(p, i, url))
  {
  }

  /** Registering a button, and appending a video modal for it, keep the state consistent. */
  lemma RegisterKeepsConsistent(p: Page, i: nat, url: string)
    requires Consistent(p) && i < |p.buttons|
    ensures Consistent(RegisterOpenButton(p, i))
    ensures Consistent(AppendModal(p, i, url))
  {
    AppendKeepsConsistent(p, i, url);
    var b := p.buttons[i].target;
    if IsYouTubeUrl(b) {
      var q := p.(buttons := p.buttons[i := p.buttons[i].(flagged := true)]);
      AppendKeepsConsistent(q, i, b);
    } else {
      RegisterSkipsOtherButtons(p, i);
    }
  }

  /** Clicking an open button and the player callbacks keep the state consistent. */
  lemma PlayerEventsKeepConsistent(p: Page, i: nat, v: string, data: int)
    requires Consistent(p)
    ensures i < |p.buttons| ==> Consistent(OpenButtonClick(p, i).page)
    ensures Consistent(ApiReady(p))
    ensures Consistent(PlayerStateChange(p, v, data).page)
  {
    OpenCloseKeepConsistent(p, PREFIX + v);
    if i < |p.buttons| {
      OpenCloseKeepConsistent(p, p.buttons[i].target);
    }
  }

  // ---------------------------------------------------------------------------
  // Properties of dispatch
  // ---------------------------------------------------------------------------

  /**
   * `handleBtnClick` changes the page only by closing: a `'close'` handler
   * closes exactly the owning modal; a skipped click, a callback and any
   * other value leave the page as it was; a failed lookup reports its fault.
   */
  lemma DispatchThreeWay(p: Page, d: Decision)
    ensures d.Handle? && d.reaction == CloseOwner ==> Dispatch(p, d) == Close(p, d.modalId)
    ensures d.Handle? && d.reaction != CloseOwner ==> Dispatch(p, d) == Step(p, Done)
    ensures d == Skip ==> Dispatch(p, d) == Step(p, Done)
    ensures d.Fail? ==> Dispatch(p, d) == Step(p, Failed(d.fault))
    ensures forall o :: o in p.openedIds && (d.Handle? && d.reaction == CloseOwner ==> o != d.modalId) ==> o in Dispatch(p, d).page.openedIds
  {
  }

  /** A wrapper click that did not land on the wrapper itself does nothing. */
  lemma WrapperGuard(p: Page, owner: Option<string>, config: Option<Settings.Fields>)
    ensures Dispatch(p, Decide(WRAPPER_CLICK, false, owner, config)) == Step(p, Done)
  {
  }

  // ---------------------------------------------------------------------------
  // Properties of the player table
  // ---------------------------------------------------------------------------

  /**
   * Registering the first `n` buttons leaves the players alone and the slot
   * holding the video of the last YouTube button among them (or as it was).
   */
  lemma {:induction false} RegisterButtonsSlot(p: Page, n: nat)
    requires n <= |p.buttons|
    ensures RegisterButtons(p, n).pending == if LastVideo(p.buttons, n).Some? then LastVideo(p.buttons, n) else p.pending
  {
    if n > 0 {
      RegisterButtonsSlot(p, n - 1);
      var q := RegisterButtons(p, n - 1);
      assert q.buttons[n - 1] == p.buttons[n - 1];
    }
  }

  /** A button whose target is not a YouTube URL is left as it is, and so is the rest of the page. */
  lemma RegisterSkipsOtherButtons(p: Page, i: nat)
    requires i < |p.buttons| && !IsYouTubeUrl(p.buttons[i].target)
    ensures RegisterOpenButton(p, i) == p
  {
  }

  /** One pass registers its own button. */
  lemma RegisteredSlot(p: Page, i: nat)
    requires i < |p.buttons|
    ensures RegisterOpenButton(p, i).buttons[i] == Registered(p.buttons[i])
  {
  }

  /** After the loop has passed the first `n` buttons, each of them is registered. */
  lemma {:induction false} RegisterButtonsEffect(p: Page, n: nat)
    requires n <= |p.buttons|
    ensures var r := RegisterButtons(p, n);
      forall j :: 0 <= j < n ==> r.buttons[j] == Registered(p.buttons[j])
  {
    if n > 0 {
      RegisterButtonsEffect(p, n - 1);
      var q := RegisterButtons(p, n - 1);
      var r := RegisterButtons(p, n);
      assert r == RegisterOpenButton(q, n - 1);
      assert q.buttons[n - 1] == p.buttons[n - 1];
      RegisteredSlot(q, n - 1);
      forall j | 0 <= j < n - 1
        ensures r.buttons[j] == Registered(p.buttons[j])
      {
        assert r.buttons[j] == q.buttons[j];
      }
    }
  }

  /** After the loop has passed the first `n` buttons, the video modal of each YouTube URL among them is on the page and flagged. */
  lemma {:induction false} RegisterButtonsModals(p: Page, n: nat)
    requires n <= |p.buttons|
    ensures var r := RegisterButtons(p, n);
      forall j :: 0 <= j < n && IsYouTubeUrl(p.buttons[j].target) ==>
        ModalIdFor(p.buttons[j].target) in r.present && ModalIdFor(p.buttons[j].target) in r.youtube
  {
    if n > 0 {
      RegisterButtonsModals(p, n - 1);
      var q := RegisterButtons(p, n - 1);
      var r := RegisterButtons(p, n);
      assert r == RegisterOpenButton(q, n - 1);
      assert q.buttons[n - 1] == p.buttons[n - 1];
      if IsYouTubeUrl(p.buttons[n - 1].target) {
        assert q.present <= r.present && q.youtube <= r.youtube;
      } else {
        RegisterSkipsOtherButtons(q, n - 1);
      }
    }
  }

  /**
   * The slot is one variable: after all buttons are registered and the API is
   * ready, only the last YouTube button's video gets a player: a fresh,
   * stopped one (replacing any it had); no other entry changes.
   */
  lemma OnlyLastVideoGetsPlayer(p: Page)
    requires LastVideo(p.buttons, |p.buttons|).Some?
    ensures var r := ApiReady(RegisterButtons(p, |p.buttons|)); var v := LastVideo(p.buttons, |p.buttons|).value;
      && r.players == p.players[v := Player(false, 0)]
      && r.players.Keys == p.players.Keys + {v}
  {
    RegisterButtonsSlot(p, |p.buttons|);
  }

  /**
   * The ids `appendModal` writes lead back to the player table: once button
   * `i` is registered for a YouTube URL, its modal wrapped and the API ready,
   * clicking the button plays that video and opens its modal, and the video's
   * "ended" event closes the modal again, stops the player and unlocks the page.
   */
  lemma VideoButtonRoundTrip(p: Page, i: nat)
    requires i < |p.buttons| && IsYouTubeUrl(p.buttons[i].target)
    ensures var url := p.buttons[i].target; var id := ModalIdFor(url); var v := VideoKey(url);
      var r := ApiReady(Wrap(RegisterOpenButton(p, i), id));
      var s := OpenButtonClick(r, i);
      && s.status == Done
      && id in s.page.openedIds && s.page.locked
      && v in s.page.players && s.page.players[v].playing
      && var e := PlayerStateChange(s.page, v, 0);
      && e.status == Done
      && id !in e.page.openedIds && !e.page.locked
      && e.page.players[v] == Player(false, 0)
  {
    var url := p.buttons[i].target;
    ModalIdRoundTrip(url);
  }

  /**
   * A YouTube URL `parseId` finds no id in still gets a video modal, under
   * the id `youtube-undefined`; without a player for `"undefined"` its button
   * then throws instead of opening a plain modal.
   */
  lemma UnparsedVideoButton(p: Page, i: nat)
    requires i < |p.buttons| && IsYouTubeUrl(p.buttons[i].target) && ParseId(p.buttons[i].target).None?
    requires UNDEFINED !in p.players
    ensures var r := RegisterOpenButton(p, i);
      && r.buttons[i] == OpenButton(PREFIX + UNDEFINED, true)
      && PREFIX + UNDEFINED in r.youtube
      && OpenButtonClick(r, i) == Step(r, Failed(MissingPlayer(UNDEFINED)))
  {
    StripPrefixRoundTrip(UNDEFINED);
  }
}
