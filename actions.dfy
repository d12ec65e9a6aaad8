/**
 * Action dispatch of a modal button click: the handler key an action name
 * selects, and what the chosen handler value makes the component do.
 */
module Actions {
  import opened Wrappers
  import opened Settings

  /** The action names whose buttons the component binds. */
  const ACTIONS: seq<string> := ["close", "cancel", "confirm", "wrapperClick"]

  const WRAPPER_CLICK: string := "wrapperClick"

  /** `String.prototype.toUpperCase` on one character, for the ASCII letters. */
  function ToUpper(c: char): (u: char)
    ensures 'a' <= c <= 'z' ==> 'A' <= u <= 'Z' && u as int == c as int - 32
    ensures !('a' <= c <= 'z') ==> u == c
  {
    if 'a' <= c <= 'z' then (c as int - 32) as char else c
  }

  /** `s.charAt(0).toUpperCase() + s.slice(1)`. */
  function Capitalize(s: string): (r: string)
    ensures |r| == |s|
    ensures s != [] ==> r[0] == ToUpper(s[0]) && r[1..] == s[1..]
  {
    if s == [] then "" else [ToUpper(s[0])] + s[1..]
  }

  /** The settings key consulted for an action: `'on' + Capitalize(action)`. */
  function HandlerKey(action: string): (k: string)
    ensures |k| == |action| + 2 && k[..2] == "on"
    ensures action != [] ==> k[2] == ToUpper(action[0]) && k[3..] == action[1..]
  {
    "on" + Capitalize(action)
  }

  /** What a handler value makes the dispatcher do. */
  datatype Reaction = CloseOwner | Invoke(fn: nat) | Nothing

  /**
   * The three-way choice on the handler found: the exact string `'close'`
   * closes the owning modal, a function is called with the modal, and any
   * other value (a missing key included) does nothing.
   */
  function React(handler: Option<Value>): (r: Reaction)
    ensures r == CloseOwner <==> handler == Some(Text(CLOSE))
    ensures r.Invoke? <==> handler.Some? && handler.value.Callback?
    ensures r.Invoke? ==> r.fn == handler.value.fn
  {
    match handler
    case Some(Text(s)) => if s == CLOSE then CloseOwner else Nothing
    case Some(Callback(f)) => Invoke(f)
    case _ => Nothing
  }

  /** Why a click could not be dispatched. */
  datatype Fault =
    | NoOwner                          // no modal around (or inside) the button: `$.camelCase(undefined)` throws
    | UnknownConfig(modalId: string)   // no settings under the camel-cased id: dereferencing them throws
    | MissingPlayer(videoId: string)   // no player for that video: calling into it throws
    | NoDefaults                       // the section's settings hold no `default` record: writing its element throws

  /** The dispatcher's decision for one click. */
  datatype Decision = Skip | Fail(fault: Fault) | Handle(modalId: string, reaction: Reaction)

  /**
   * `handleBtnClick` up to the close call. `targetIsButton` says whether the
   * event's target is the bound button itself; `owner` is the id of the modal
   * found from the button (None when the DOM query found none); `config` is the
   * settings record stored under that id's camel-cased key, None when absent.
   */
  function Decide(action: string, targetIsButton: bool, owner: Option<string>, config: Option<Fields>): (d: Decision)
    ensures action == WRAPPER_CLICK && !targetIsButton ==> d == Skip
    ensures d == Skip ==> action == WRAPPER_CLICK && !targetIsButton
    ensures d.Handle? ==> owner == Some(d.modalId) && config.Some?
  {
    if action == WRAPPER_CLICK && !targetIsButton then Skip
    else if owner.None? then Fail(NoOwner)
    else if config.None? then Fail(UnknownConfig(owner.value))
    else
      var key := HandlerKey(action);
      Handle(owner.value, React(if key in config.value then Some(config.value[key]) else None))
  }

  /**
   * Each bound action name selects a default handler key: `close` selects
   * `onClose`, `cancel` `onCancel`, `confirm` `onConfirm` and `wrapperClick`
   * `onWrapperClick`; none of them selects `onEscape`.
   */
  lemma ActionKeysAreHandlerKeys(a: string)
    requires a in ACTIONS
    ensures HandlerKey(a) in HANDLER_KEYS && HandlerKey(a) != "onEscape"
    ensures HandlerKey(a) == if a == "close" then "onClose" else if a == "cancel" then "onCancel"
      else if a == "confirm" then "onConfirm" else "onWrapperClick"
  {
    if a == "close" {
      CloseKey();
    } else if a == "cancel" {
      CancelKey();
    } else if a == "confirm" {
      ConfirmKey();
    } else {
      WrapperClickKey();
    }
  }

  // One literal key per lemma: each is a computation on strings that is cheap alone.
  lemma CloseKey() ensures HandlerKey("close") == "onClose" {}
  lemma CancelKey() ensures HandlerKey("cancel") == "onCancel" {}
  lemma ConfirmKey() ensures HandlerKey("confirm") == "onConfirm" {}
  lemma WrapperClickKey() ensures HandlerKey("wrapperClick") == "onWrapperClick" {}

  /** `Capitalize(a)` equals a word starting with an upper-case letter exactly for the word and its lower-cased-first form. */
  lemma CapitalizeIs(a: string, w: string)
    requires w != [] && 'A' <= w[0] <= 'Z'
    ensures Capitalize(a) == w <==> a == w || a == [(w[0] as int + 32) as char] + w[1..]
  {
    if Capitalize(a) == w {
      assert a != [];
      assert a == [a[0]] + a[1..];
    }
    if a == w || a == [(w[0] as int + 32) as char] + w[1..] {
      assert Capitalize(a) == [ToUpper(a[0])] + a[1..];
    }
  }

  /** Prefixing with `"on"` loses nothing: two action names share a key only when their capitalised forms agree. */
  lemma HandlerKeyInjective(a: string, b: string)
    ensures HandlerKey(a) == HandlerKey(b) <==> Capitalize(a) == Capitalize(b)
  {
    if HandlerKey(a) == HandlerKey(b) {
      assert Capitalize(a) == HandlerKey(a)[2..];
      assert Capitalize(b) == HandlerKey(b)[2..];
    }
  }

  /**
   * Only the words `escape` and `Escape` select `onEscape`; none of the four
   * bound action names is one of them, so the escape handler is never dispatched.
   */
  lemma EscapeHandlerUnreachable(a: string)
    ensures HandlerKey(a) == "onEscape" <==> a == "escape" || a == "Escape"
    ensures a in ACTIONS ==> HandlerKey(a) != "onEscape"
  {
    KeyFor(a, "onEscape", "Escape", "escape");
  }

  /** The action names whose key is `key == "on" + w`, for a capitalised word `w` and its lower-cased-first form `lower`. */
  lemma KeyFor(a: string, key: string, w: string, lower: string)
    requires key == "on" + w
    requires w != [] && 'A' <= w[0] <= 'Z' && lower == [(w[0] as int + 32) as char] + w[1..]
    ensures HandlerKey(a) == key <==> a == w || a == lower
  {
    HandlerKeyInjective(a, w);
    CapitalizeIs(a, w);
    CapitalizeIs(w, w);
  }

  /**
   * On a record resolved from the defaults, a bound action (past the wrapper
   * guard) closes the owning modal unless the user supplied that handler, in
   * which case the user's value decides.
   */
  lemma DecideOnResolved(action: string, targetIsButton: bool, id: string, defaults: Fields, user: Fields)
    requires action in ACTIONS && (action == WRAPPER_CLICK ==> targetIsButton)
    requires AllHandlersClose(defaults)
    ensures var key := HandlerKey(action);
      Decide(action, targetIsButton, Some(id), Some(Extend(defaults, user)))
        == Handle(id, if key in user then React(Some(user[key])) else CloseOwner)
  {
    ActionKeysAreHandlerKeys(action);
    ExtendResolvesHandlers(defaults, user);
  }
}
