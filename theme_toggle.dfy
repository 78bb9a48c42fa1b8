/**
 * The theme button: each press moves to the next of light, dark and system,
 * and the button's label names the current theme.
 */
module ThemeToggle {

  const Themes: seq<string> := ["light", "dark", "system"]

  /** `themes.indexOf(theme)`: the first position of `theme`, or -1. */
  function IndexOf(xs: seq<string>, x: string): (i: int)
    ensures -1 <= i < |xs|
    ensures i == -1 <==> x !in xs
    ensures 0 <= i ==> xs[i] == x && forall j :: 0 <= j < i ==> xs[j] != x
  {
    if xs == [] then -1
    else if xs[0] == x then 0
    else var k := IndexOf(xs[1..], x); if k == -1 then -1 else k + 1
  }

  /** `cycleTheme`: `themes[(currentIndex + 1) % themes.length]`. */
  function CycleTheme(theme: string): (next: string)
    ensures next in Themes
  {
    Themes[(IndexOf(Themes, theme) + 1) % |Themes|]
  }

  /** light goes to dark, dark to system, system back to light, and a theme
      outside the list (index -1) goes to light. */
  lemma CycleOrder(theme: string)
    ensures CycleTheme("light") == "dark"
    ensures CycleTheme("dark") == "system"
    ensures CycleTheme("system") == "light"
    ensures theme !in Themes ==> CycleTheme(theme) == "light"
  {
    assert IndexOf(Themes, "light") == 0;
    assert IndexOf(Themes, "dark") == 1;
    assert IndexOf(Themes, "system") == 2;
  }

  /** Three presses return to the starting theme; from outside the list, three
      presses after the first land on light again. */
  lemma ThreeCyclesReturn(theme: string)
    ensures theme in Themes ==> CycleTheme(CycleTheme(CycleTheme(theme))) == theme
    ensures CycleTheme(CycleTheme(CycleTheme(CycleTheme(theme)))) == CycleTheme(theme)
  {
    CycleOrder(theme);
  }

  /** `getThemeLabel`, 'Theme' for anything else. */
  function ThemeLabel(theme: string): (text: string)
    ensures text == "Theme" <==> theme !in Themes
  {
    match theme
    case "light" => "Light"
    case "dark" => "Dark"
    case "system" => "System"
    case _ => "Theme"
  }
}
