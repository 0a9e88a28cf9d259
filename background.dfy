/**
 * The SuperBook service worker: it writes the install defaults, answers
 * `getSettings`, toggles the stored `enabled` flag from the toolbar icon and
 * from `toggleExtension` messages, broadcasts the new state to every tab, and
 * keeps the action title and icon in step with the flag.
 *
 * Each storage callback runs as part of the event that issued the request; the
 * browser's answers (whether `setIcon` is accepted, the list of open tabs) are
 * parameters.
 */
module Background {
  import opened Wrappers
  import opened Settings

  /** The icon path map handed to `chrome.action.setIcon`, by icon size. */
  datatype IconPaths = IconPaths(size16: string, size32: string, size48: string)

  /** A `chrome.storage.onChanged` entry for `enabled`; `newValue` is missing when the key was removed. */
  datatype Change = Change(newValue: Option<bool>)

  /** The action title `updateTitle` sets. */
  function Title(enabled: bool): string {
    if enabled then "SuperBook (Enabled) - Click to toggle" else "SuperBook (Disabled) - Click to toggle"
  }

  /** The path map `setExtensionIcon` requests. */
  function Icons(enabled: bool): IconPaths {
    if enabled then IconPaths("icons/icon16.png", "icons/icon16.png", "icons/icon48.png")
    else IconPaths("icons/icon16-disabled.png", "icons/icon24-disabled.png", "icons/icon32-disabled.png")
  }

  /** The title is chosen by the flag alone, the two titles differ, and each names its state after "SuperBook (". */
  lemma TitleByFlag(a: bool, b: bool)
    ensures Title(a) == Title(b) <==> a == b
    ensures Title(a)[..11] == "SuperBook (" && Title(a)[11] == (if a then 'E' else 'D')
  {
    if a != b {
      assert Title(a)[11] != Title(b)[11];
    }
  }

  /** The icon set is chosen by the flag alone, and the enabled and disabled sets share no path. */
  lemma IconsByFlag(a: bool, b: bool)
    ensures Icons(a) == Icons(b) <==> a == b
    ensures a != b ==>
      (Icons(a).size16 != Icons(b).size16 && Icons(a).size32 != Icons(b).size32
       && Icons(a).size48 != Icons(b).size48)
  {
    if a != b {
      assert Icons(true).size16[12] != Icons(false).size16[12];
      assert Icons(true).size32[10] != Icons(false).size32[10];
      assert Icons(true).size48[10] != Icons(false).size48[10];
    }
  }

  /** A tab id is used only when it is truthy: present and not 0. */
  predicate HasTruthyId(tab: Tab) {
    tab.id.Some? && tab.id.value != 0
  }

  /** The messages the `toggleExtension` broadcast sends, in the order of `tabs`. */
  function Broadcast(tabs: seq<Tab>, enabled: bool): (r: seq<TabMessage>)
    ensures |r| <= |tabs|
    ensures forall k :: 0 <= k < |r| ==> r[k].enabled == enabled && r[k].tabId != 0
    decreases |tabs|
  {
    if tabs == [] then []
    else
      var last := tabs[|tabs| - 1];
      Broadcast(tabs[..|tabs| - 1], enabled)
        + (if HasTruthyId(last) then [TabMessage(last.id.value, enabled)] else [])
  }

  /** How many messages in `msgs` go to tab `id`. */
  function SentTo(msgs: seq<TabMessage>, id: int): nat
    decreases |msgs|
  {
    if msgs == [] then 0
    else SentTo(msgs[..|msgs| - 1], id) + (if msgs[|msgs| - 1].tabId == id then 1 else 0)
  }

  /** How many of `tabs` carry the id `id`. */
  function TabsWithId(tabs: seq<Tab>, id: int): nat
    decreases |tabs|
  {
    if tabs == [] then 0
    else TabsWithId(tabs[..|tabs| - 1], id) + (if tabs[|tabs| - 1].id == Some(id) then 1 else 0)
  }

  /** Each non-zero id is sent to once per tab that carries it; id 0 never. */
  lemma {:induction false} BroadcastCounts(tabs: seq<Tab>, enabled: bool, id: int)
    ensures SentTo(Broadcast(tabs, enabled), id) == if id == 0 then 0 else TabsWithId(tabs, id)
    decreases |tabs|
  {
    if tabs != [] {
      var init := tabs[..|tabs| - 1];
      var last := tabs[|tabs| - 1];
      var extra := if HasTruthyId(last) then [TabMessage(last.id.value, enabled)] else [];
      BroadcastCounts(init, enabled, id);
      SentToConcat(Broadcast(init, enabled), extra, id);
    }
  }

  lemma {:induction false} SentToConcat(a: seq<TabMessage>, b: seq<TabMessage>, id: int)
    requires |b| <= 1
    ensures SentTo(a + b, id) == SentTo(a, id) + SentTo(b, id)
  {
    if b == [] {
      assert a + b == a;
    } else {
      assert (a + b)[..|a + b| - 1] == a;
      assert b[..0] == [];
    }
  }

  /** Tabs whose ids no other tab shares. */
  predicate DistinctIds(tabs: seq<Tab>) {
    forall i, j :: 0 <= i < j < |tabs| && tabs[i].id.Some? ==> tabs[i].id != tabs[j].id
  }

  lemma {:induction false} DistinctCount(tabs: seq<Tab>, i: nat)
    requires DistinctIds(tabs) && i < |tabs| && tabs[i].id.Some?
    ensures TabsWithId(tabs, tabs[i].id.value) == 1
    decreases |tabs|
  {
    var init := tabs[..|tabs| - 1];
    if i == |tabs| - 1 {
      AbsentCount(init, tabs[i].id.value);
    } else {
      assert init[i] == tabs[i];
      DistinctCount(init, i);
    }
  }

  lemma {:induction false} AbsentCount(tabs: seq<Tab>, id: int)
    requires forall k :: 0 <= k < |tabs| ==> tabs[k].id != Some(id)
    ensures TabsWithId(tabs, id) == 0
    decreases |tabs|
  {
    if tabs != [] {
      AbsentCount(tabs[..|tabs| - 1], id);
    }
  }

  /**
   * With distinct tab ids, every tab with a truthy id is sent the new state
   * exactly once, and every message sent carries the new state.
   */
  lemma BroadcastReachesEachTabOnce(tabs: seq<Tab>, enabled: bool, i: nat)
    requires DistinctIds(tabs) && i < |tabs| && HasTruthyId(tabs[i])
    ensures SentTo(Broadcast(tabs, enabled), tabs[i].id.value) == 1
    ensures TabMessage(tabs[i].id.value, enabled) in Broadcast(tabs, enabled)
  {
    BroadcastCounts(tabs, enabled, tabs[i].id.value);
    DistinctCount(tabs, i);
    SentOnce(Broadcast(tabs, enabled), tabs[i].id.value, enabled);
  }

  lemma {:induction false} SentOnce(msgs: seq<TabMessage>, id: int, enabled: bool)
    requires SentTo(msgs, id) > 0
    requires forall k :: 0 <= k < |msgs| ==> msgs[k].enabled == enabled
    ensures TabMessage(id, enabled) in msgs
    decreases |msgs|
  {
    var init := msgs[..|msgs| - 1];
    if msgs[|msgs| - 1].tabId != id {
      SentOnce(init, id, enabled);
      assert init[|init| - 1] == msgs[|init| - 1];
    }
  }

  /** What an icon click writes: the negation of the flag as read with `!== false`. */
  function Clicked(s: Stored): (r: Stored)
    ensures IsOn(r.enabled) == !IsOn(s.enabled)
    ensures r.autoHide == s.autoHide && r.hideDelay == s.hideDelay
  {
    s.(enabled := Some(!IsOn(s.enabled)))
  }

  /** Two clicks restore a stored flag exactly; an absent flag comes back stored as true, which reads the same. */
  lemma ClickTwice(s: Stored)
    ensures IsOn(Clicked(Clicked(s)).enabled) == IsOn(s.enabled)
    ensures s.enabled.Some? ==> Clicked(Clicked(s)) == s
    ensures s.enabled.None? ==> Clicked(Clicked(s)) == s.(enabled := Some(true))
  {
  }

  /** The flag a storage change hands to `updateTitle`: `newValue` as a JavaScript truth value. */
  function ChangedFlag(c: Change): (r: bool)
    ensures r <==> c.newValue == Some(true)
  {
    match c.newValue
    case None => false
    case Some(b) => b
  }

  /** Removing the key shows the disabled title, although `getSettings` reads an absent flag as enabled. */
  lemma RemovalShowsDisabled()
    ensures Title(ChangedFlag(Change(None))) == Title(false)
    ensures Normalize(Stored(None, None, None)).enabled
  {
  }

  /** The reply to a runtime message. */
  datatype Reply = SettingsReply(settings: Config) | ToggleReply(success: bool)

  class Worker {
    /** `chrome.storage.sync`. */
    var stored: Stored
    /** The action title last set. */
    var title: string
    /** The icon paths last accepted by the browser; `None` until one is. */
    var icon: Option<IconPaths>
    /** Every `toggleExtension` message sent to a tab, in order. */
    var sent: seq<TabMessage>

    /** A worker over whatever the browser has stored, before its start-up read. */
    constructor (initial: Stored)
      ensures stored == initial && title == "" && icon == None && sent == []
    {
      stored := initial;
      title := "";
      icon := None;
      sent := [];
    }

    /** `updateTitle`. */
    method UpdateTitle(enabled: bool)
      modifies this
      ensures title == Title(enabled)
      ensures stored == old(stored) && icon == old(icon) && sent == old(sent)
    {
      title := Title(enabled);
    }

    /** `setExtensionIcon`: the result says whether the browser accepted the paths, whatever the flag. */
    method SetExtensionIcon(enabled: bool, accepted: bool) returns (ok: bool)
      modifies this
      ensures ok == accepted
      ensures icon == if accepted then Some(Icons(enabled)) else old(icon)
      ensures stored == old(stored) && title == old(title) && sent == old(sent)
    {
      if accepted {
        icon := Some(Icons(enabled));
        ok := true;
      } else {
        ok := false;
      }
    }

    /** `initializeState`: the title follows the stored flag; the icon is left alone. */
    method InitializeState()
      modifies this
      ensures title == Title(IsOn(stored.enabled))
      ensures stored == old(stored) && icon == old(icon) && sent == old(sent)
    {
      UpdateTitle(IsOn(stored.enabled));
    }

    /** `onInstalled`: only an install writes the defaults; then the state is initialised. */
    method OnInstalled(reason: string)
      modifies this
      ensures stored == if reason == "install" then Defaults else old(stored)
      ensures title == Title(IsOn(stored.enabled))
      ensures icon == old(icon) && sent == old(sent)
    {
      if reason == "install" {
        stored := Defaults;
      }
      InitializeState();
    }

    /** `action.onClicked`: store the negated flag, show it, and tell the clicked tab when its id is truthy. */
    method OnIconClicked(tab: Option<Tab>, iconAccepted: bool)
      modifies this
      ensures stored == Clicked(old(stored))
      ensures title == Title(IsOn(stored.enabled))
      ensures icon == if iconAccepted then Some(Icons(IsOn(stored.enabled))) else old(icon)
      ensures sent == old(sent)
        + (if tab.Some? && HasTruthyId(tab.value) then [TabMessage(tab.value.id.value, IsOn(stored.enabled))] else [])
    {
      var newState := !IsOn(stored.enabled);
      stored := stored.(enabled := Some(newState));
      UpdateTitle(newState);
      var _ := SetExtensionIcon(newState, iconAccepted);
      if tab.Some? && HasTruthyId(tab.value) {
        sent := sent + [TabMessage(tab.value.id.value, newState)];
      }
    }

    /** `getSettings`: the stored values with their defaults filled in; nothing changes. */
    method OnGetSettings() returns (reply: Reply)
      ensures reply.SettingsReply?
      ensures reply.settings.enabled <==> stored.enabled != Some(false)
      ensures reply.settings.autoHide <==> stored.autoHide != Some(false)
      ensures reply.settings.hideDelay == DelayOr(stored.hideDelay)
    {
      reply := SettingsReply(Normalize(stored));
    }

    /**
     * `toggleExtension`: store the requested flag verbatim, show it, send it to
     * every open tab with a truthy id, and answer `{success: true}`.
     */
    method OnToggleMessage(enabled: bool, tabs: seq<Tab>, iconAccepted: bool) returns (reply: Reply)
      modifies this
      ensures reply == ToggleReply(true)
      ensures stored == old(stored).(enabled := Some(enabled))
      ensures title == Title(enabled)
      ensures icon == if iconAccepted then Some(Icons(enabled)) else old(icon)
      ensures sent == old(sent) + Broadcast(tabs, enabled)
    {
      stored := stored.(enabled := Some(enabled));
      UpdateTitle(enabled);
      var _ := SetExtensionIcon(enabled, iconAccepted);
      var i := 0;
      while i < |tabs|
        invariant 0 <= i <= |tabs|
        invariant sent == old(sent) + Broadcast(tabs[..i], enabled)
        invariant stored == old(stored).(enabled := Some(enabled))
        invariant title == Title(enabled)
        invariant icon == if iconAccepted then Some(Icons(enabled)) else old(icon)
      {
        assert tabs[..i + 1][..i] == tabs[..i];
        if HasTruthyId(tabs[i]) {
          sent := sent + [TabMessage(tabs[i].id.value, enabled)];
        }
        i := i + 1;
      }
      assert tabs[..i] == tabs;
      reply := ToggleReply(true);
    }

    /**
     * `runtime.onMessage`: `getSettings` answers and changes nothing, `toggleExtension`
     * stores, shows and broadcasts the flag, and any other action gets no reply
     * and changes nothing.
     */
    method OnMessage(message: Message, tabs: seq<Tab>, iconAccepted: bool) returns (reply: Option<Reply>)
      modifies this
      ensures message.GetSettings? ==>
        (reply == Some(SettingsReply(Normalize(old(stored))))
         && stored == old(stored) && sent == old(sent)
         && title == old(title) && icon == old(icon))
      ensures message.ToggleExtension? ==>
        (reply == Some(ToggleReply(true))
         && stored == old(stored).(enabled := Some(message.enabled))
         && title == Title(message.enabled)
         && icon == (if iconAccepted then Some(Icons(message.enabled)) else old(icon))
         && sent == old(sent) + Broadcast(tabs, message.enabled))
      ensures message.OtherAction? ==>
        (reply == None && stored == old(stored) && sent == old(sent)
         && title == old(title) && icon == old(icon))
    {
      match message
      case GetSettings =>
        var r := OnGetSettings();
        reply := Some(r);
      case ToggleExtension(enabled) =>
        var r := OnToggleMessage(enabled, tabs, iconAccepted);
        reply := Some(r);
      case OtherAction =>
        reply := None;
    }

    /** `storage.onChanged`: a change of `enabled` in the sync area is shown; anything else is ignored. */
    method OnStorageChanged(area: string, enabledChange: Option<Change>, iconAccepted: bool)
      modifies this
      ensures area == "sync" && enabledChange.Some? ==>
        title == Title(ChangedFlag(enabledChange.value))
        && icon == (if iconAccepted then Some(Icons(ChangedFlag(enabledChange.value))) else old(icon))
      ensures !(area == "sync" && enabledChange.Some?) ==> title == old(title) && icon == old(icon)
      ensures stored == old(stored) && sent == old(sent)
    {
      if area == "sync" && enabledChange.Some? {
        var flag := ChangedFlag(enabledChange.value);
        UpdateTitle(flag);
        var _ := SetExtensionIcon(flag, iconAccepted);
      }
    }

    /** The start-up read: title and icon follow the stored flag; the result is whether the icon was accepted. */
    method OnStartup(iconAccepted: bool) returns (success: bool)
      modifies this
      ensures success == iconAccepted
      ensures title == Title(IsOn(stored.enabled))
      ensures icon == if iconAccepted then Some(Icons(IsOn(stored.enabled))) else old(icon)
      ensures stored == old(stored) && sent == old(sent)
    {
      var enabled := IsOn(stored.enabled);
      UpdateTitle(enabled);
      success := SetExtensionIcon(enabled, iconAccepted);
    }
  }
}
