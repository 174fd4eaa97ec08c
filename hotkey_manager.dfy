/**
 * The hotkey managers of utils/hotkey_manager.py: a Windows manager that
 * registers hotkeys with the `keyboard` library, an inert macOS manager, and
 * the factory that picks one by platform. The library is modelled as a table
 * of registered hotkey strings; its exceptions become `false` results.
 */
module Hotkeys {
  import opened Common

  /** A callback handed to the library; only its identity matters here. */
  datatype Callback = Callback(id: nat)

  const WindowsPlatform: string := "Windows"

  /** Python truthiness of an optional string: present and not empty. */
  predicate Present(h: Option<string>) {
    h.Some? && h.value != ""
  }

  /** `hotkey_str or self.current_hotkey`: the key `unregister_hotkey` removes. */
  function KeyToRemove(h: Option<string>, current: Option<string>): (r: Option<string>)
    ensures Present(h) ==> r == h
    ensures !Present(h) ==> r == current
    ensures Present(r) <==> Present(h) || Present(current)
  {
    if Present(h) then h else current
  }

  /**
   * The `keyboard` library's hotkey table. `add_hotkey` raises for a hotkey
   * string it cannot parse (the strings in `rejected`); `remove_hotkey`
   * raises for a hotkey that is not registered.
   */
  class Keyboard {
    var hotkeys: map<string, Option<Callback>>
    const rejected: set<string>

    constructor (rejected: set<string>)
      ensures hotkeys == map[] && this.rejected == rejected
    {
      hotkeys := map[];
      this.rejected := rejected;
    }

    method AddHotkey(h: string, callback: Option<Callback>) returns (ok: bool)
      modifies this`hotkeys
      ensures ok <==> h !in rejected
      ensures hotkeys == if ok then old(hotkeys)[h := callback] else old(hotkeys)
    {
      ok := h !in rejected;
      if ok {
        hotkeys := hotkeys[h := callback];
      }
    }

    method RemoveHotkey(h: string) returns (ok: bool)
      modifies this`hotkeys
      ensures ok <==> h in old(hotkeys)
      ensures hotkeys == if ok then old(hotkeys) - {h} else old(hotkeys)
    {
      ok := h in hotkeys;
      if ok {
        hotkeys := hotkeys - {h};
      }
    }
  }

  /**
   * `WindowsHotkeyManager`. `available` is `KEYBOARD_AVAILABLE`: without the
   * library every method returns `false` and changes nothing.
   */
  class WindowsHotkeyManager {
    var callback: Option<Callback>
    var currentHotkey: Option<string>
    var isActive: bool
    var screenshotCallback: Option<Callback>
    var screenshotHotkey: Option<string>
    var screenshotActive: bool
    const available: bool
    const keyboard: Keyboard

    /** A new manager holds no hotkey and no screenshot listener. */
    constructor (callback: Option<Callback>, available: bool, keyboard: Keyboard)
      ensures this.callback == callback && this.available == available && this.keyboard == keyboard
      ensures currentHotkey == None && !isActive
      ensures screenshotHotkey == None && screenshotCallback == None && !screenshotActive
    {
      this.callback := callback;
      currentHotkey := None;
      isActive := false;
      screenshotCallback := None;
      screenshotHotkey := None;
      screenshotActive := false;
      this.available := available;
      this.keyboard := keyboard;
    }

    method SetCallback(callback: Option<Callback>)
      modifies this`callback
      ensures this.callback == callback
    {
      this.callback := callback;
    }

    /**
     * `unregister_hotkey(h)`: removes `h`, or the current hotkey when `h` is
     * `None` or empty. The current hotkey is cleared only when `h` is `None`
     * or names it; removing a key that is not registered fails and changes
     * nothing. With nothing to remove it succeeds and changes nothing.
     */
    method UnregisterHotkey(h: Option<string>) returns (ok: bool)
      modifies this`currentHotkey, this`isActive, keyboard`hotkeys
      ensures !available ==> !ok
      ensures var key := KeyToRemove(h, old(currentHotkey));
              var removed := available && Present(key) && key.value in old(keyboard.hotkeys);
              (available ==> (ok <==> !Present(key) || removed))
              && keyboard.hotkeys == (if removed then old(keyboard.hotkeys) - {key.value} else old(keyboard.hotkeys))
              && (if removed && (h.None? || h == old(currentHotkey))
                  then currentHotkey == None && !isActive
                  else currentHotkey == old(currentHotkey) && isActive == old(isActive))
    {
      if !available {
        return false;
      }
      var key := KeyToRemove(h, currentHotkey);
      if Present(key) {
        ok := keyboard.RemoveHotkey(key.value);
        if !ok {
          return false;
        }
        if h.None? || h == currentHotkey {
          currentHotkey := None;
          isActive := false;
        }
      }
      return true;
    }

    /**
     * `register_hotkey(h)`: first unregisters the current hotkey (whatever
     * that does), then adds `h`; on success `h` is the current, active hotkey.
     */
    method RegisterHotkey(h: string) returns (ok: bool)
      modifies this`currentHotkey, this`isActive, keyboard`hotkeys
      ensures !available ==> !ok && currentHotkey == old(currentHotkey) && isActive == old(isActive)
                             && keyboard.hotkeys == old(keyboard.hotkeys)
      ensures available ==>
                var key := old(currentHotkey);
                var removed := Present(key) && key.value in old(keyboard.hotkeys);
                var cleared := if removed then old(keyboard.hotkeys) - {key.value} else old(keyboard.hotkeys);
                (ok <==> h !in keyboard.rejected)
                && keyboard.hotkeys == (if ok then cleared[h := callback] else cleared)
                && (if ok then currentHotkey == Some(h) && isActive
                    else if removed then currentHotkey == None && !isActive
                    else currentHotkey == old(currentHotkey) && isActive == old(isActive))
    {
      if !available {
        return false;
      }
      var _ := UnregisterHotkey(None);
      ok := keyboard.AddHotkey(h, callback);
      if ok {
        currentHotkey := Some(h);
        isActive := true;
      }
    }

    /**
     * `unregister_screenshot_listener`: removes the listener's hotkey and
     * clears the listener's three fields together; with no listener it
     * succeeds and changes nothing. The main hotkey is never touched.
     */
    method UnregisterScreenshotListener() returns (ok: bool)
      modifies this`screenshotHotkey, this`screenshotCallback, this`screenshotActive, keyboard`hotkeys
      ensures !available ==> !ok
      ensures var key := old(screenshotHotkey);
              var removed := available && Present(key) && key.value in old(keyboard.hotkeys);
              (available ==> (ok <==> !Present(key) || removed))
              && keyboard.hotkeys == (if removed then old(keyboard.hotkeys) - {key.value} else old(keyboard.hotkeys))
              && (if removed then screenshotHotkey == None && screenshotCallback == None && !screenshotActive
                  else screenshotHotkey == old(screenshotHotkey) && screenshotCallback == old(screenshotCallback)
                       && screenshotActive == old(screenshotActive))
    {
      if !available {
        return false;
      }
      if Present(screenshotHotkey) {
        ok := keyboard.RemoveHotkey(screenshotHotkey.value);
        if !ok {
          return false;
        }
        screenshotHotkey := None;
        screenshotCallback := None;
        screenshotActive := false;
      }
      return true;
    }

    /** `register_screenshot_listener(h, cb)`: replaces the listener; on success all three fields are set. */
    method RegisterScreenshotListener(h: string, cb: Option<Callback>) returns (ok: bool)
      modifies this`screenshotHotkey, this`screenshotCallback, this`screenshotActive, keyboard`hotkeys
      ensures !available ==> !ok && screenshotHotkey == old(screenshotHotkey)
                             && screenshotCallback == old(screenshotCallback)
                             && screenshotActive == old(screenshotActive)
                             && keyboard.hotkeys == old(keyboard.hotkeys)
      ensures available ==>
                var key := old(screenshotHotkey);
                var removed := Present(key) && key.value in old(keyboard.hotkeys);
                var cleared := if removed then old(keyboard.hotkeys) - {key.value} else old(keyboard.hotkeys);
                (ok <==> h !in keyboard.rejected)
                && keyboard.hotkeys == (if ok then cleared[h := cb] else cleared)
                && (if ok then screenshotHotkey == Some(h) && screenshotCallback == cb && screenshotActive
                    else if removed then screenshotHotkey == None && screenshotCallback == None && !screenshotActive
                    else screenshotHotkey == old(screenshotHotkey) && screenshotCallback == old(screenshotCallback)
                         && screenshotActive == old(screenshotActive))
    {
      if !available {
        return false;
      }
      var _ := UnregisterScreenshotListener();
      ok := keyboard.AddHotkey(h, cb);
      if ok {
        screenshotHotkey := Some(h);
        screenshotCallback := cb;
        screenshotActive := true;
      }
    }
  }

  /** `MacOSHotkeyManager`: records the hotkey strings, never activates, always succeeds. */
  class MacOSHotkeyManager {
    var callback: Option<Callback>
    var currentHotkey: Option<string>
    var isActive: bool
    var screenshotCallback: Option<Callback>
    var screenshotHotkey: Option<string>
    var screenshotActive: bool

    constructor (callback: Option<Callback>)
      ensures this.callback == callback
      ensures currentHotkey == None && !isActive
      ensures screenshotHotkey == None && screenshotCallback == None && !screenshotActive
    {
      this.callback := callback;
      currentHotkey := None;
      isActive := false;
      screenshotCallback := None;
      screenshotHotkey := None;
      screenshotActive := false;
    }

    method SetCallback(callback: Option<Callback>)
      modifies this`callback
      ensures this.callback == callback
    {
      this.callback := callback;
    }

    method RegisterHotkey(h: string) returns (ok: bool)
      modifies this`currentHotkey, this`isActive
      ensures ok && currentHotkey == Some(h) && !isActive
    {
      currentHotkey := Some(h);
      isActive := false;
      return true;
    }

    /** Clears the current hotkey only for `None` or the current hotkey itself. */
    method UnregisterHotkey(h: Option<string>) returns (ok: bool)
      modifies this`currentHotkey, this`isActive
      ensures ok
      ensures if h.None? || h == old(currentHotkey) then currentHotkey == None && !isActive
              else currentHotkey == old(currentHotkey) && isActive == old(isActive)
    {
      if h.None? || h == currentHotkey {
        currentHotkey := None;
        isActive := false;
      }
      return true;
    }

    method RegisterScreenshotListener(h: string, cb: Option<Callback>) returns (ok: bool)
      modifies this`screenshotHotkey, this`screenshotCallback, this`screenshotActive
      ensures ok && screenshotHotkey == Some(h) && screenshotCallback == cb && !screenshotActive
    {
      screenshotHotkey := Some(h);
      screenshotCallback := cb;
      screenshotActive := false;
      return true;
    }

    method UnregisterScreenshotListener() returns (ok: bool)
      modifies this`screenshotHotkey, this`screenshotCallback, this`screenshotActive
      ensures ok && screenshotHotkey == None && screenshotCallback == None && !screenshotActive
    {
      screenshotHotkey := None;
      screenshotCallback := None;
      screenshotActive := false;
      return true;
    }
  }

  /** The manager `create_hotkey_manager` gives: one of the two kinds. */
  datatype Manager = Windows(windows: WindowsHotkeyManager) | MacOS(macos: MacOSHotkeyManager)

  /** `KEYBOARD_AVAILABLE`: Windows, and the `keyboard` module imported. */
  function KeyboardAvailable(platform: string, imported: bool): (r: bool)
    ensures r ==> platform == WindowsPlatform
  {
    platform == WindowsPlatform && imported
  }

  /**
   * `create_hotkey_manager(callback)` on `platform` (what `platform.system()`
   * returns), with `imported` telling whether `import keyboard` succeeded.
   */
  method CreateHotkeyManager(platform: string, callback: Option<Callback>, imported: bool,
                             keyboard: Keyboard) returns (m: Manager)
    ensures m.Windows? <==> platform == WindowsPlatform
    ensures m.Windows? ==> fresh(m.windows) && m.windows.available == imported
                           && m.windows.keyboard == keyboard && m.windows.callback == callback
                           && m.windows.currentHotkey == None && !m.windows.isActive
                           && m.windows.screenshotHotkey == None && !m.windows.screenshotActive
                           && m.windows.screenshotCallback == None
    ensures m.MacOS? ==> fresh(m.macos) && m.macos.callback == callback
                         && m.macos.currentHotkey == None && !m.macos.isActive
                         && m.macos.screenshotHotkey == None && !m.macos.screenshotActive
                         && m.macos.screenshotCallback == None
  {
    if platform == WindowsPlatform {
      var w := new WindowsHotkeyManager(callback, KeyboardAvailable(platform, imported), keyboard);
      m := Windows(w);
    } else {
      var mac := new MacOSHotkeyManager(callback);
      m := MacOS(mac);
    }
  }
}
