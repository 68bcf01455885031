/** The web client's theme switch: a light, dark or auto preference kept in the
    browser's local storage, resolved to a `dark` class on the document element,
    and the drop-down menu that picks it. The document, the storage and the menu's
    class lists are the fields of one `Page`; the operating system's colour-scheme
    preference is a parameter. */
module Theme {
  import opened Wrappers
  import Utils

  /** Whether the `dark` class ends up set after `applyTheme(theme)`: "dark" sets
      it, "light" leaves it off, and anything else follows the system. */
  predicate ResolvesDark(theme: string, systemDark: bool) {
    theme == "dark" || (theme != "light" && systemDark)
  }

  /** `localStorage.getItem('theme') || 'auto'`: a missing or empty entry reads
      as "auto". */
  function StoredOrAuto(stored: Option<string>): (t: string)
    ensures stored.Some? && stored.value != "" ==> t == stored.value
    ensures stored.None? || stored.value == "" ==> t == "auto"
  {
    if stored.Some? && stored.value != "" then stored.value else "auto"
  }

  /** The icon the menu shows for each of the three choices; any other name has
      none (`undefined`). */
  function Icon(theme: string): (r: Option<string>)
    ensures r.Some? <==> theme in {"light", "dark", "auto"}
  {
    if theme == "light" then Some("\U{2600}\U{FE0F}")
    else if theme == "dark" then Some("\U{1F319}")
    else if theme == "auto" then Some("\U{1F4BB}")
    else None
  }

  const RotateOpen := "rotate(180deg)"
  const RotateClosed := "rotate(0deg)"

  class Page {
    /** The `theme` entry of local storage; `None` when unset. */
    var stored: Option<string>
    /** Whether the document element carries the `dark` class. */
    var dark: bool
    /** The `hidden` class on the menu and on the theme's label. */
    var menuHidden: bool
    var textHidden: bool
    var chevron: string
    var iconText: Option<string>
    var labelText: string
    /** How many times the theme-change callback has run. */
    var callbacks: nat

    /** A freshly rendered toggle: the menu and its label hidden. */
    constructor (stored: Option<string>)
      ensures this.stored == stored && !dark
      ensures menuHidden && textHidden && callbacks == 0
    {
      this.stored := stored;
      dark := false;
      menuHidden, textHidden := true, true;
      chevron := "";
      iconText := None;
      labelText := "";
      callbacks := 0;
    }

    /** `getStoredTheme`. */
    function GetStoredTheme(): (t: string)
      reads this
      ensures t != ""
      ensures stored.Some? && stored.value != "" ==> t == stored.value
    {
      StoredOrAuto(stored)
    }

    /** `setStoredTheme`. */
    method SetStoredTheme(theme: string)
      modifies this`stored
      ensures stored == Some(theme)
    {
      stored := Some(theme);
    }

    /** `applyTheme`: the class is removed first, then set again when the theme
        resolves to dark. */
    method ApplyTheme(theme: string, systemDark: bool)
      modifies this`dark
      ensures dark == ResolvesDark(theme, systemDark)
    {
      dark := false;
      if theme == "dark" {
        dark := true;
      } else if theme == "light" {
      } else {
        if systemDark {
          dark := true;
        }
      }
    }

    /** `getCurrentTheme`: reads the class back. */
    function GetCurrentTheme(): (t: string)
      reads this
      ensures t == "dark" <==> dark
      ensures t == "light" <==> !dark
    {
      if dark then "dark" else "light"
    }

    /** A click on the toggle button: opens a hidden menu (with its label and the
        chevron turned over) and closes an open one. The click does not reach the
        document's listener. */
    method ToggleClick()
      modifies this`menuHidden, this`textHidden, this`chevron
      ensures menuHidden == !old(menuHidden) && textHidden == menuHidden
      ensures chevron == if menuHidden then RotateClosed else RotateOpen
    {
      var isHidden := menuHidden;
      if isHidden {
        menuHidden, textHidden := false, false;
        chevron := RotateOpen;
      } else {
        menuHidden, textHidden := true, true;
        chevron := RotateClosed;
      }
    }

    /** Any other click on the document closes the menu. */
    method DocumentClick()
      modifies this`menuHidden, this`textHidden, this`chevron
      ensures menuHidden && textHidden && chevron == RotateClosed
    {
      menuHidden, textHidden := true, true;
      chevron := RotateClosed;
    }

    /** The menu's own listener. Outside any `data-theme` button (`button` is
        `None`) it returns at once; on one, its theme is stored and applied, the
        icon and capitalised label updated, the menu closed, and the callback, when
        one was given, run once. */
    method MenuListener(button: Option<string>, systemDark: bool, hasCallback: bool)
      modifies this
      ensures button.None? ==> && stored == old(stored) && dark == old(dark) && menuHidden == old(menuHidden)
                               && textHidden == old(textHidden) && chevron == old(chevron)
                               && iconText == old(iconText) && labelText == old(labelText)
                               && callbacks == old(callbacks)
      ensures button.Some? ==> stored == Some(button.value) && dark == ResolvesDark(button.value, systemDark)
      ensures button.Some? ==> iconText == Icon(button.value) && labelText == Utils.ToTitleCase(button.value)
      ensures button.Some? ==> menuHidden && textHidden && chevron == RotateClosed
      ensures button.Some? ==> callbacks == old(callbacks) + (if hasCallback then 1 else 0)
    {
      if button.None? {
        return;
      }
      var theme := button.value;
      SetStoredTheme(theme);
      ApplyTheme(theme, systemDark);
      iconText := Icon(theme);
      labelText := Utils.ToTitleCase(theme);
      menuHidden, textHidden := true, true;
      chevron := RotateClosed;
      if hasCallback {
        callbacks := callbacks + 1;
      }
    }

    /** A click inside the menu as the page handles it. The menu is not inside
        the toggle button, and neither the menu's listener nor anything below it
        stops the click, so after the menu's listener it bubbles up to the
        document's listener: the menu closes whether or not a theme was picked. */
    method MenuClick(button: Option<string>, systemDark: bool, hasCallback: bool)
      modifies this
      ensures menuHidden && textHidden && chevron == RotateClosed
      ensures button.None? ==> && stored == old(stored) && dark == old(dark)
                               && iconText == old(iconText) && labelText == old(labelText)
                               && callbacks == old(callbacks)
      ensures button.Some? ==> stored == Some(button.value) && dark == ResolvesDark(button.value, systemDark)
      ensures button.Some? ==> iconText == Icon(button.value) && labelText == Utils.ToTitleCase(button.value)
      ensures button.Some? ==> callbacks == old(callbacks) + (if hasCallback then 1 else 0)
    {
      MenuListener(button, systemDark, hasCallback);
      DocumentClick();
    }
  }

  /** Applying a theme depends only on the theme and the system preference, so
      applying it twice is applying it once, whatever the class was before. */
  method ApplyTwice(theme: string, systemDark: bool, darkBefore: bool) returns (once: bool, twice: bool)
    ensures once == twice == ResolvesDark(theme, systemDark)
  {
    var p := new Page(None);
    p.dark := darkBefore;
    p.ApplyTheme(theme, systemDark);
    once := p.dark;
    p.ApplyTheme(theme, systemDark);
    twice := p.dark;
  }

  /** A stored non-empty choice reads back as itself; before any choice the
      preference reads as "auto". */
  method StoreThenRead(theme: string) returns (before: string, after: string)
    requires theme != ""
    ensures before == "auto" && after == theme
  {
    var p := new Page(None);
    before := p.GetStoredTheme();
    p.SetStoredTheme(theme);
    after := p.GetStoredTheme();
  }

  /** Choosing "auto" while the system prefers dark shows the dark theme, and the
      current theme then reads back as "dark"; the choice itself stays "auto". */
  method AutoFollowsSystem(systemDark: bool) returns (current: string, stored: string)
    ensures current == (if systemDark then "dark" else "light")
    ensures stored == "auto"
  {
    var p := new Page(None);
    p.MenuClick(Some("auto"), systemDark, true);
    current := p.GetCurrentTheme();
    stored := p.GetStoredTheme();
  }

  /** Opening the menu and clicking inside it off the theme buttons closes it
      again and leaves the theme as it was. */
  method ClickInsideMenuCloses(stored: Option<string>, systemDark: bool)
    returns (openBefore: bool, openAfter: bool, themeAfter: string)
    ensures openBefore && !openAfter
    ensures themeAfter == StoredOrAuto(stored)
  {
    var p := new Page(stored);
    p.ToggleClick();
    openBefore := !p.menuHidden;
    p.MenuClick(None, systemDark, true);
    openAfter := !p.menuHidden;
    themeAfter := p.GetStoredTheme();
  }

  /** Two clicks on the toggle open the menu and close it again. */
  method ToggleTwice() returns (openAfterOne: bool, openAfterTwo: bool)
    ensures openAfterOne && !openAfterTwo
  {
    var p := new Page(None);
    p.ToggleClick();
    openAfterOne := !p.menuHidden;
    p.ToggleClick();
    openAfterTwo := !p.menuHidden;
  }
}
