/**
 * The three settings both background scripts keep in synced storage
 * (`enabled`, `autoHide`, `hideDelay`), the ways the scripts read a stored
 * flag, and the runtime messages exchanged between popup, background and
 * content scripts.
 */
module Settings {
  import opened Wrappers

  /** The default auto-hide delay, in milliseconds. */
  const DefaultHideDelay: int := 5000

  /** What `chrome.storage.sync.get` yields: a key is absent until something writes it. */
  datatype Stored = Stored(enabled: Option<bool>, autoHide: Option<bool>, hideDelay: Option<int>)

  /** The object a `getSettings` request is answered with. */
  datatype Config = Config(enabled: bool, autoHide: bool, hideDelay: int)

  /** A runtime message, by its `action` field. */
  datatype Message =
    | GetSettings
    | ToggleExtension(enabled: bool)
    | OtherAction

  /** A browser tab as the background scripts see it: its `id` may be missing. */
  datatype Tab = Tab(id: Option<int>)

  /** A `{action: "toggleExtension", enabled}` message sent to one tab. */
  datatype TabMessage = TabMessage(tabId: int, enabled: bool)

  /** The values written on a fresh install. */
  const Defaults: Stored := Stored(Some(true), Some(true), Some(DefaultHideDelay))

  /** `stored !== false`: a flag counts as on unless it is stored as false. */
  function IsOn(stored: Option<bool>): (r: bool)
    ensures r <==> stored != Some(false)
    ensures stored.Some? ==> r == stored.value
  {
    match stored
    case None => true
    case Some(b) => b
  }

  /** `!stored`: an absent flag negates to true, like a stored false. */
  function Negate(stored: Option<bool>): (r: bool)
    ensures r <==> stored != Some(true)
    ensures stored.Some? ==> r == !stored.value
  {
    match stored
    case None => true
    case Some(b) => !b
  }

  /** `stored || 5000`: an absent delay and a delay of 0 both read as the default. */
  function DelayOr(stored: Option<int>): (r: int)
    ensures r != 0
    ensures r == DefaultHideDelay <==> stored == None || stored == Some(0) || stored == Some(DefaultHideDelay)
    ensures stored.Some? && stored.value != 0 ==> r == stored.value
  {
    match stored
    case None => DefaultHideDelay
    case Some(d) => if d == 0 then DefaultHideDelay else d
  }

  /** The `getSettings` answer, identical in both background scripts. */
  function Normalize(s: Stored): (c: Config)
    ensures c.enabled <==> s.enabled != Some(false)
    ensures c.autoHide <==> s.autoHide != Some(false)
    ensures c.hideDelay == if s.hideDelay == None || s.hideDelay == Some(0) then DefaultHideDelay else s.hideDelay.value
  {
    Config(IsOn(s.enabled), IsOn(s.autoHide), DelayOr(s.hideDelay))
  }

  /** Storage as it would be after writing a configuration back. */
  function Store(c: Config): Stored {
    Stored(Some(c.enabled), Some(c.autoHide), Some(c.hideDelay))
  }

  /**
   * Empty storage and the install defaults read the same, and a configuration
   * read back after being stored is unchanged: normalising is idempotent.
   */
  lemma NormalizeDefaults(s: Stored)
    ensures Normalize(Defaults) == Normalize(Stored(None, None, None)) == Config(true, true, DefaultHideDelay)
    ensures Normalize(Store(Normalize(s))) == Normalize(s)
  {
  }

  /** A stored configuration reads back as itself exactly when its delay is not 0. */
  lemma StoreRoundTrip(c: Config)
    ensures Normalize(Store(c)) == c <==> c.hideDelay != 0
  {
    if c.hideDelay == 0 {
      assert Normalize(Store(c)).hideDelay == DefaultHideDelay;
    }
  }

  /**
   * Writing `!(stored !== false)` flips the flag as read; doing it twice gives
   * back the flag as read, whatever was stored, absent included.
   */
  lemma IsOnToggleTwice(stored: Option<bool>)
    ensures IsOn(Some(!IsOn(stored))) == !IsOn(stored)
    ensures IsOn(Some(!IsOn(Some(!IsOn(stored))))) == IsOn(stored)
  {
  }

  /**
   * Writing `!stored` flips a stored flag, but an absent flag, which reads as
   * on, is written as true and so still reads as on; a second write turns it
   * off, so two such toggles from empty storage do not restore the reading.
   */
  lemma NegateToggle(stored: Option<bool>)
    ensures stored.Some? ==> IsOn(Some(Negate(stored))) == !IsOn(stored)
    ensures stored.None? ==> IsOn(Some(Negate(stored))) == IsOn(stored)
    ensures stored.None? ==> IsOn(Some(Negate(Some(Negate(stored))))) != IsOn(stored)
  {
  }
}
