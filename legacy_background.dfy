/**
 * The older Quick Dictionary background script: install defaults, an icon
 * click that writes `!enabled`, `updateIcon`, and the `getSettings` answer.
 * It handles no `toggleExtension` message and no storage change.
 */
module LegacyBackground {
  import opened Wrappers
  import opened Settings

  /** The icon path map `updateIcon` requests, by icon size. */
  datatype IconPaths = IconPaths(size16: string, size48: string, size128: string)

  /** The path map `updateIcon` chooses. */
  function Icons(enabled: bool): IconPaths {
    if enabled then IconPaths("icon16.png", "icon48.png", "icon128.png")
    else IconPaths("icon16-disabled.png", "icon48-disabled.png", "icon128-disabled.png")
  }

  /** The title `updateIcon` sets. */
  function Title(enabled: bool): string {
    if enabled then "Quick Dictionary (Enabled)" else "Quick Dictionary (Disabled)"
  }

  /** Path map and title are chosen by the flag alone, and the two states look different in both. */
  lemma PresentationByFlag(a: bool, b: bool)
    ensures Icons(a) == Icons(b) <==> a == b
    ensures Title(a) == Title(b) <==> a == b
    ensures Title(a)[..18] == "Quick Dictionary (" && Title(a)[18] == (if a then 'E' else 'D')
  {
    if a != b {
      assert Icons(a).size16[6] != Icons(b).size16[6];
      assert Title(a)[18] != Title(b)[18];
    }
  }

  /** What an icon click writes: `!enabled` as stored, so an absent flag becomes true. */
  function Clicked(s: Stored): (r: Stored)
    ensures r.enabled == Some(s.enabled != Some(true))
    ensures r.autoHide == s.autoHide && r.hideDelay == s.hideDelay
  {
    s.(enabled := Some(Negate(s.enabled)))
  }

  /**
   * Two clicks restore a stored flag; from empty storage the first click
   * stores true, which still reads as enabled, and the second turns it off.
   */
  lemma ClickTwice(s: Stored)
    ensures s.enabled.Some? ==> Clicked(Clicked(s)) == s
    ensures s.enabled.None? ==> IsOn(Clicked(s).enabled) && Clicked(Clicked(s)).enabled == Some(false)
  {
  }

  class Worker {
    /** `chrome.storage.sync`. */
    var stored: Stored
    /** The action title last set. */
    var title: string
    /** The icon paths last accepted by the browser; `None` until one is. */
    var icon: Option<IconPaths>
    /** Every `toggleExtension` message sent to a tab, in order. */
    var sent: seq<TabMessage>

    constructor (initial: Stored)
      ensures stored == initial && title == "" && icon == None && sent == []
    {
      stored := initial;
      title := "";
      icon := None;
      sent := [];
    }

    /** `updateIcon`: request the path map (the browser may refuse it) and set the title. */
    method UpdateIcon(enabled: bool, iconAccepted: bool)
      modifies this
      ensures icon == if iconAccepted then Some(Icons(enabled)) else old(icon)
      ensures title == Title(enabled)
      ensures stored == old(stored) && sent == old(sent)
    {
      if iconAccepted {
        icon := Some(Icons(enabled));
      }
      title := Title(enabled);
    }

    /** `onInstalled`: an install writes the defaults; an update or anything else writes nothing. */
    method OnInstalled(reason: string)
      modifies this
      ensures stored == if reason == "install" then Defaults else old(stored)
      ensures title == old(title) && icon == old(icon) && sent == old(sent)
    {
      if reason == "install" {
        stored := Defaults;
      }
    }

    /**
     * `action.onClicked`: store `!enabled`, show it, and send it to the tab.
     * The id is used without a truthiness test; a missing id makes the send
     * throw, after the write and the icon update, so nothing is sent.
     */
    method OnIconClicked(tab: Tab, iconAccepted: bool)
      modifies this
      ensures stored == Clicked(old(stored))
      ensures title == Title(stored.enabled.value)
      ensures icon == if iconAccepted then Some(Icons(stored.enabled.value)) else old(icon)
      ensures sent == old(sent) + (if tab.id.Some? then [TabMessage(tab.id.value, stored.enabled.value)] else [])
    {
      var newState := Negate(stored.enabled);
      stored := stored.(enabled := Some(newState));
      UpdateIcon(newState, iconAccepted);
      if tab.id.Some? {
        sent := sent + [TabMessage(tab.id.value, newState)];
      }
    }

    /** `runtime.onMessage`: only `getSettings` is answered, with the defaults filled in; nothing changes. */
    method OnMessage(message: Message) returns (reply: Option<Config>)
      ensures reply.Some? <==> message.GetSettings?
      ensures reply.Some? ==>
        ((reply.value.enabled <==> stored.enabled != Some(false))
         && (reply.value.autoHide <==> stored.autoHide != Some(false))
         && reply.value.hideDelay == DelayOr(stored.hideDelay))
    {
      if message.GetSettings? {
        reply := Some(Normalize(stored));
      } else {
        reply := None;
      }
    }

    /** The start-up read: icon and title follow the flag as read with `!== false`. */
    method OnStartup(iconAccepted: bool)
      modifies this
      ensures icon == if iconAccepted then Some(Icons(IsOn(stored.enabled))) else old(icon)
      ensures title == Title(IsOn(stored.enabled))
      ensures stored == old(stored) && sent == old(sent)
    {
      UpdateIcon(IsOn(stored.enabled), iconAccepted);
    }
  }
}
