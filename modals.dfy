/**
 * The modal component as an object: the section's settings bag it fills and
 * reads, and the page state its handlers change in place. Every method is
 * proved to leave the state the matching function of `PageState` describes.
 */
module Modals {
  import opened Wrappers
  import opened Settings
  import opened Actions
  import opened YouTube
  import opened PageState

  class ModalComponent {
    /** `section.components.modals`: settings objects keyed by camel-cased modal id, `default` among them. */
    var bag: map<string, SettingsObject>
    /** `$.camelCase`, whose code is not part of this model. */
    const camel: string -> string

    var present: set<string>
    var wrapped: set<string>
    var youtube: set<string>
    var openedIds: set<string>
    var locked: bool
    var scrollTop: map<string, int>
    var buttons: seq<OpenButton>
    var players: map<string, Player>
    var pending: Option<string>

    /** The page state as a value. */
    function Snapshot(): Page
      reads this
    {
      Page(present, wrapped, youtube, openedIds, locked, scrollTop, buttons, players, pending)
    }

    /** The settings record stored for a modal id, if any. */
    function Lookup(id: string): Option<Fields>
      reads this, bag.Values
    {
      var key := camel(id);
      if key in bag then Some(bag[key].fields) else None
    }

    /**
     * The component on a freshly loaded section: the settings objects the core
     * handed over, the static modals with their offsets, those of them whose
     * markup already carries the YouTube flag, the open buttons, no modal
     * wrapped or open, no player and nothing in the API-ready slot.
     */
    constructor (bag: map<string, SettingsObject>, camel: string -> string, scrollTop: map<string, int>, flagged: set<string>, buttons: seq<OpenButton>)
      requires flagged <= scrollTop.Keys
      ensures this.bag == bag && this.camel == camel
      ensures Snapshot() == Page(scrollTop.Keys, {}, flagged, {}, false, scrollTop, buttons, map[], None)
      ensures Consistent(Snapshot())
    {
      this.bag := bag;
      this.camel := camel;
      present := scrollTop.Keys;
      wrapped := {};
      youtube := flagged;
      openedIds := {};
      locked := false;
      this.scrollTop := scrollTop;
      this.buttons := buttons;
      players := map[];
      pending := None;
    }

    /**
     * `prepare`: write the element into the shared defaults object, then
     * either store that very object under the modal's key (no user record) or
     * replace the user record by a fresh merge of the defaults and it; finally
     * wrap the modal. Throws before changing anything when there is no
     * `default` record.
     */
    method Prepare(id: string, element: nat) returns (status: Status)
      requires id in present
      modifies this, if DEFAULT_KEY in bag then {bag[DEFAULT_KEY]} else {}
      ensures DEFAULT_KEY !in old(bag) ==> status == Failed(NoDefaults) && bag == old(bag) && Snapshot() == old(Snapshot())
      ensures DEFAULT_KEY in old(bag) ==> status == Done && Snapshot() == Wrap(old(Snapshot()), id)
      ensures Consistent(old(Snapshot())) ==> Consistent(Snapshot())
      ensures DEFAULT_KEY in old(bag) ==>
        var d := old(bag)[DEFAULT_KEY];
        var key := camel(id);
        && d.fields == old(d.fields)[ELEMENT_KEY := Element(element)]
        && (key !in old(bag) ==> bag == old(bag)[key := d])
        && (key in old(bag) ==>
              && key in bag && fresh(bag[key]) && bag == old(bag)[key := bag[key]]
              && bag[key].fields == Extend(d.fields, old(bag)[key].fields))
      ensures DEFAULT_KEY in old(bag) && AllHandlersClose(old(bag[DEFAULT_KEY].fields)) ==>
        var key := camel(id);
        && key in bag && AllHandlersClose(bag[DEFAULT_KEY].fields)
        && forall hk :: hk in HANDLER_KEYS ==>
             hk in bag[key].fields
             && bag[key].fields[hk] == ResolvedHandler(if key in old(bag) then old(bag[key].fields) else map[], hk)
    {
      if DEFAULT_KEY !in bag {
        return Failed(NoDefaults);
      }
      var d := bag[DEFAULT_KEY];
      d.fields := d.fields[ELEMENT_KEY := Element(element)];
      var key := camel(id);
      if key !in bag {
        bag := bag[key := d];
      } else {
        var merged := new SettingsObject(Extend(d.fields, bag[key].fields));
        bag := bag[key := merged];
      }
      wrapped := wrapped + {id};
      status := Done;
    }

    /** `actions.open`. */
    method Open(id: string)
      modifies this
      ensures Snapshot() == PageState.Open(old(Snapshot()), id)
      ensures Consistent(old(Snapshot())) ==> Consistent(Snapshot())
      ensures bag == old(bag)
    {
      if id in wrapped {
        openedIds := openedIds + {id};
      }
      locked := true;
    }

    /** `youtube.close`: `stopVideo()`, then `seekTo(0, true)`, on the video's player. */
    method StopAndRewind(id: string) returns (status: Status)
      modifies this
      ensures var s := PageState.StopAndRewind(old(Snapshot()), id); Snapshot() == s.page && status == s.status
      ensures Consistent(old(Snapshot())) ==> Consistent(Snapshot())
      ensures bag == old(bag)
    {
      var v := RemoveFirst(id, PREFIX);
      if v !in players {
        return Failed(MissingPlayer(v));
      }
      players := players[v := players[v].(playing := false)];
      players := players[v := players[v].(position := 0)];
      status := Done;
    }

    /** `actions.close`. */
    method Close(id: string) returns (status: Status)
      modifies this
      ensures var s := PageState.Close(old(Snapshot()), id); Snapshot() == s.page && status == s.status
      ensures Consistent(old(Snapshot())) ==> Consistent(Snapshot())
      ensures bag == old(bag)
    {
      if Consistent(Snapshot()) { OpenCloseKeepConsistent(Snapshot(), id); }
      openedIds := openedIds - {id};
      if id in youtube {
        status := StopAndRewind(id);
        if status.Failed? {
          return;
        }
      }
      locked := false;
      if id in present {
        scrollTop := scrollTop[id := 0];
      }
      status := Done;
    }

    /** `youtube.open`: `playVideo()` on the video's player, then open its modal. */
    method YouTubeOpen(openStr: string) returns (status: Status)
      modifies this
      ensures var s := PageState.YouTubeOpen(old(Snapshot()), openStr); Snapshot() == s.page && status == s.status
      ensures Consistent(old(Snapshot())) ==> Consistent(Snapshot())
      ensures bag == old(bag)
    {
      if Consistent(Snapshot()) { OpenCloseKeepConsistent(Snapshot(), openStr); }
      var v := RemoveFirst(openStr, PREFIX);
      if v !in players {
        return Failed(MissingPlayer(v));
      }
      players := players[v := players[v].(playing := true)];
      Open(openStr);
      status := Done;
    }

    /** The click handler of open button `i`. */
    method OpenButtonClick(i: nat) returns (status: Status)
      requires i < |buttons|
      modifies this
      ensures var s := PageState.OpenButtonClick(old(Snapshot()), i); Snapshot() == s.page && status == s.status
      ensures Consistent(old(Snapshot())) ==> Consistent(Snapshot())
      ensures bag == old(bag)
    {
      if Consistent(Snapshot()) { PlayerEventsKeepConsistent(Snapshot(), i, "", 1); }
      var b := buttons[i];
      if b.flagged {
        status := YouTubeOpen(b.target);
      } else {
        Open(b.target);
        status := Done;
      }
    }

    /**
     * `handleBtnClick`: decide from the action, the event target and the
     * settings stored for the owning modal, then close that modal when the
     * handler is `'close'`. A callback's own effects are outside the model.
     */
    method HandleBtnClick(action: string, targetIsButton: bool, owner: Option<string>) returns (decision: Decision, status: Status)
      modifies this
      ensures decision == Decide(action, targetIsButton, owner, if owner.Some? then old(Lookup(owner.value)) else None)
      ensures var s := Dispatch(old(Snapshot()), decision); Snapshot() == s.page && status == s.status
      ensures Consistent(old(Snapshot())) ==> Consistent(Snapshot())
      ensures bag == old(bag)
    {
      if Consistent(Snapshot()) && owner.Some? { OpenCloseKeepConsistent(Snapshot(), owner.value); }
      if action == WRAPPER_CLICK && !targetIsButton {
        return Skip, Done;
      }
      if owner.None? {
        return Fail(NoOwner), Failed(NoOwner);
      }
      var key := camel(owner.value);
      if key !in bag {
        return Fail(UnknownConfig(owner.value)), Failed(UnknownConfig(owner.value));
      }
      var config := bag[key].fields;
      var handlerKey := HandlerKey(action);
      var reaction := React(if handlerKey in config then Some(config[handlerKey]) else None);
      decision := Handle(owner.value, reaction);
      if reaction == CloseOwner {
        status := Close(owner.value);
      } else {
        status := Done;
      }
    }

    /** `appendModal` for button `i` and its URL. */
    method AppendModal(i: nat, url: string)
      requires i < |buttons|
      modifies this
      ensures Snapshot() == PageState.AppendModal(old(Snapshot()), i, url)
      ensures Consistent(old(Snapshot())) ==> Consistent(Snapshot())
      ensures bag == old(bag)
    {
      var videoKey := VideoKey(url);
      var id := PREFIX + videoKey;
      buttons := buttons[i := buttons[i].(target := id)];
      if id !in present {
        scrollTop := scrollTop[id := 0];
      }
      present := present + {id};
      youtube := youtube + {id};
      pending := Some(videoKey);
    }

    /** One pass of `init`'s button loop. */
    method RegisterOpenButton(i: nat)
      requires i < |buttons|
      modifies this
      ensures Snapshot() == PageState.RegisterOpenButton(old(Snapshot()), i)
      ensures Consistent(old(Snapshot())) ==> Consistent(Snapshot())
      ensures bag == old(bag)
    {
      if Consistent(Snapshot()) { RegisterKeepsConsistent(Snapshot(), i, ""); }
      var url := buttons[i].target;
      if IsYouTubeUrl(url) {
        buttons := buttons[i := buttons[i].(flagged := true)];
        AppendModal(i, url);
      }
    }

    /** `init`'s loop over the section's open buttons. */
    method RegisterButtons()
      modifies this
      ensures Snapshot() == PageState.RegisterButtons(old(Snapshot()), |old(buttons)|)
      ensures Consistent(old(Snapshot())) ==> Consistent(Snapshot())
      ensures bag == old(bag)
    {
      ghost var p0 := Snapshot();
      var k := 0;
      while k < |buttons|
        invariant |buttons| == |p0.buttons| && k <= |buttons|
        invariant Snapshot() == PageState.RegisterButtons(p0, k)
        invariant bag == old(bag)
        invariant Consistent(p0) ==> Consistent(Snapshot())
      {
        RegisterOpenButton(k);
        k := k + 1;
      }
    }

    /** The API's ready callback. */
    method ApiReady()
      modifies this
      ensures Snapshot() == PageState.ApiReady(old(Snapshot()))
      ensures Consistent(old(Snapshot())) ==> Consistent(Snapshot())
      ensures bag == old(bag)
    {
      if pending.Some? {
        players := players[pending.value := STOPPED];
      }
    }

    /** `videoStateChange` for the player of video `v`. */
    method PlayerStateChange(v: string, data: int) returns (status: Status)
      modifies this
      ensures var s := PageState.PlayerStateChange(old(Snapshot()), v, data); Snapshot() == s.page && status == s.status
      ensures Consistent(old(Snapshot())) ==> Consistent(Snapshot())
      ensures bag == old(bag)
    {
      if Consistent(Snapshot()) { PlayerEventsKeepConsistent(Snapshot(), 0, v, data); }
      if data == 0 {
        status := Close(PREFIX + v);
      } else {
        status := Done;
      }
    }
  }
}
