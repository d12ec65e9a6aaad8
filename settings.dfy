/**
 * Settings records of the modal component: the per-section bag of JavaScript
 * objects that `prepare` fills, and the shallow merge it uses.
 */
module Settings {
  import opened Wrappers

  /**
   * A property value of a settings object. JavaScript values are dynamically
   * typed; the component only tells apart strings (the `'close'` sentinel),
   * functions (user callbacks, identified by a number), jQuery element handles,
   * and everything else.
   */
  datatype Value = Text(s: string) | Callback(fn: nat) | Element(handle: nat) | Other

  type Fields = map<string, Value>

  /** The handler value that makes an action close its modal. */
  const CLOSE: string := "close"

  /** The property `prepare` overwrites on the shared defaults object. */
  const ELEMENT_KEY: string := "element"

  /** The key under which the section's settings bag holds the defaults object. */
  const DEFAULT_KEY: string := "default"

  /** The five handler keys of the component's defaults, in declaration order. */
  const HANDLER_KEYS: seq<string> := ["onConfirm", "onCancel", "onClose", "onEscape", "onWrapperClick"]

  /** The component's `defaults.default` record: every handler closes. */
  const DEFAULT_FIELDS: Fields := map[
    "onConfirm" := Text(CLOSE), "onCancel" := Text(CLOSE), "onClose" := Text(CLOSE),
    "onEscape" := Text(CLOSE), "onWrapperClick" := Text(CLOSE)]

  /** Every handler key is present and holds the close sentinel. */
  predicate AllHandlersClose(f: Fields) {
    forall k :: k in HANDLER_KEYS ==> k in f && f[k] == Text(CLOSE)
  }

  /**
   * `$.extend({}, defaults, user)`: a fresh record holding every property of
   * `defaults`, then every own property of `user` written over it.
   */
  function Extend(defaults: Fields, user: Fields): (r: Fields)
    ensures r.Keys == defaults.Keys + user.Keys
    ensures forall k :: k in user ==> r[k] == user[k]
    ensures forall k :: k in defaults && k !in user ==> r[k] == defaults[k]
  {
    defaults + user
  }

  /** The value a resolved record holds for a handler key: the user's if given, otherwise the sentinel. */
  function ResolvedHandler(user: Fields, key: string): Value {
    if key in user then user[key] else Text(CLOSE)
  }

  /**
   * Merging any user record over defaults whose handlers all close yields a
   * record with all five handler keys, each the user's value when the user
   * supplied one and `'close'` otherwise; other user properties are kept.
   */
  lemma ExtendResolvesHandlers(defaults: Fields, user: Fields)
    requires AllHandlersClose(defaults)
    ensures var r := Extend(defaults, user);
      forall k :: k in HANDLER_KEYS ==> k in r && r[k] == ResolvedHandler(user, k)
    ensures user.Keys <= Extend(defaults, user).Keys
  {
  }

  /** Merging a record over itself, or an empty user record over the defaults, changes nothing. */
  lemma ExtendIdempotent(defaults: Fields)
    ensures Extend(defaults, defaults) == defaults
    ensures Extend(defaults, map[]) == defaults
  {
  }

  /** The component's defaults satisfy the handler invariant. */
  lemma DefaultFieldsClose()
    ensures AllHandlersClose(DEFAULT_FIELDS)
    ensures ELEMENT_KEY !in HANDLER_KEYS
  {
  }

  /** A JavaScript object used as a settings record; it is shared by reference. */
  class SettingsObject {
    var fields: Fields

    constructor (fields: Fields)
      ensures this.fields == fields
    {
      this.fields := fields;
    }
  }
}
