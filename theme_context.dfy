// src/context/ThemeContext.tsx: the colour-scheme mode, its persistence under
// the 'themeMode' key of local storage, and the light/dark value handed to
// the theme.

module ThemeContext {
  import opened Seqs

  datatype Mode = Light | Dark | System

  const StorageKey: string := "themeMode"

  function ModeName(m: Mode): string
  {
    match m
    case Light => "light"
    case Dark => "dark"
    case System => "system"
  }

  /** `['light', 'dark', 'system'].includes(saved)`: the stored text as a mode, if it is one. */
  function ParseMode(saved: string): (m: Option<Mode>)
    ensures m.Some? ==> ModeName(m.value) == saved
  {
    if saved == "light" then Some(Light)
    else if saved == "dark" then Some(Dark)
    else if saved == "system" then Some(System)
    else None
  }

  /** Every mode written to storage is read back as itself. */
  lemma ParseModeName(m: Mode)
    ensures ParseMode(ModeName(m)) == Some(m)
  {
  }

  /** The mode toggleTheme moves to. */
  function NextMode(m: Mode): (n: Mode)
    ensures n != m
  {
    match m
    case Light => Dark
    case Dark => System
    case System => Light
  }

  /** Three toggles bring every mode back. */
  lemma NextModeCycle(m: Mode)
    ensures NextMode(NextMode(NextMode(m))) == m
    ensures NextMode(m) != m && NextMode(NextMode(m)) != m
  {
  }

  /** currentMode: an explicit mode passes through; 'system' follows the
      media query. The result is never System. */
  function CurrentMode(m: Mode, prefersDark: bool): (c: Mode)
    ensures c != System
    ensures m != System ==> c == m
    ensures m == System ==> (c == Dark <==> prefersDark)
  {
    if m == System then (if prefersDark then Dark else Light) else m
  }

  /** `localStorage.getItem('themeMode') || 'system'`: the stored text, or
      'system' when nothing or an empty string is stored. */
  function SavedMode(storage: map<string, string>): (saved: string)
    ensures saved != ""
    ensures StorageKey in storage && storage[StorageKey] != "" ==> saved == storage[StorageKey]
  {
    if StorageKey in storage && storage[StorageKey] != "" then storage[StorageKey] else "system"
  }

  /** A toggled mode survives a reload: the next mount reads back the mode the
      toggle stored, whatever else the storage holds. */
  lemma ToggleSurvivesReload(storage: map<string, string>, m: Mode)
    ensures ParseMode(SavedMode(storage[StorageKey := ModeName(NextMode(m))])) == Some(NextMode(m))
  {
    ParseModeName(NextMode(m));
  }

  /** The provider's mode state together with the local storage it writes. */
  class ThemeProvider {
    var mode: Mode
    var storage: map<string, string>

    /** The first render: the state starts as 'system'. */
    constructor (storage: map<string, string>)
      ensures mode == System
      ensures this.storage == storage
    {
      mode := System;
      this.storage := storage;
    }

    /** The mount effect: adopt the saved mode only if it names a mode. */
    method LoadSaved()
      modifies this
      ensures ParseMode(SavedMode(old(storage))).Some? ==> mode == ParseMode(SavedMode(old(storage))).value
      ensures ParseMode(SavedMode(old(storage))).None? ==> mode == old(mode)
      ensures storage == old(storage)
    {
      var parsed := ParseMode(SavedMode(storage));
      if parsed.Some? {
        mode := parsed.value;
      }
    }

    /** toggleTheme: the next mode becomes the state and is stored under 'themeMode'. */
    method ToggleTheme()
      modifies this
      ensures mode == NextMode(old(mode))
      ensures storage == old(storage)[StorageKey := ModeName(mode)]
    {
      var next := NextMode(mode);
      mode := next;
      storage := storage[StorageKey := ModeName(next)];
    }
  }
}
