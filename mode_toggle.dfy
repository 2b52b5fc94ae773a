/** The theme toggle (components/mode-toggle.tsx): a placeholder until mounted, then a
    button that flips the theme held by the theme provider. */
module Theme {
  import opened Auth

  const Dark := "dark"
  const Light := "light"

  /** The click handler's new theme (line 18): "dark" becomes "light", anything else,
      including no theme yet, becomes "dark". */
  function Toggled(theme: Option<string>): (next: string)
    ensures theme == Some(Dark) ==> next == Light
    ensures theme != Some(Dark) ==> next == Dark
    ensures next == Dark || next == Light
  {
    if theme == Some(Dark) then Light else Dark
  }

  /** Two clicks restore "dark" and "light"; from any other value they end on "light". */
  lemma ToggleTwice(theme: Option<string>)
    ensures theme == Some(Dark) || theme == Some(Light) ==> Toggled(Some(Toggled(theme))) == theme.value
    ensures theme != Some(Dark) && theme != Some(Light) ==> Toggled(Some(Toggled(theme))) == Light
  {
  }

  datatype Icon = Moon | Sun

  /** The icon (lines 23-43): the moon for "dark", the sun otherwise. */
  function IconFor(theme: Option<string>): (icon: Icon)
    ensures icon == Moon <==> theme == Some(Dark)
  {
    if theme == Some(Dark) then Moon else Sun
  }

  /** Every click swaps the icon, whatever the theme was. */
  lemma ToggleSwapsIcon(theme: Option<string>)
    ensures IconFor(Some(Toggled(theme))) != IconFor(theme)
  {
  }

  /** What the component draws: an empty placeholder box, or the button with an icon. */
  datatype View = Placeholder | Button(icon: Icon)

  /** The theme kept by the theme provider, shared by every toggle on the page. */
  class ThemeStore {
    var theme: Option<string>

    constructor (initial: Option<string>)
      ensures theme == initial
    {
      theme := initial;
    }
  }

  class ModeToggle {
    var mounted: bool

    /** The first render, before its effect has run (line 10). */
    constructor ()
      ensures !mounted
    {
      mounted := false;
    }

    /** The mount effect (line 13) sets `mounted`, once. */
    method MountEffect()
      modifies this
      ensures mounted
    {
      mounted := true;
    }

    /** Before mount only the placeholder is drawn (line 14); after, the button with the
        icon of the current theme. */
    function Draw(store: ThemeStore): (v: View)
      reads this, store
      ensures v == Placeholder <==> !mounted
      ensures v.Button? ==> v.icon == IconFor(store.theme)
    {
      if !mounted then Placeholder else Button(IconFor(store.theme))
    }

    /** A click on the button; there is no button to click before mount. */
    method Click(store: ThemeStore)
      requires Draw(store).Button?
      modifies store
      ensures store.theme == Some(Toggled(old(store.theme)))
      ensures Draw(store) != old(Draw(store))
    {
      ToggleSwapsIcon(store.theme);
      store.theme := Some(Toggled(store.theme));
    }
  }
}
