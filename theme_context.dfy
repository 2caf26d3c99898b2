/**
 * context/ThemeContext.tsx: the dark-mode flag, its initial value from the
 * device colour scheme, the effect that follows the device, the toggle, and
 * the palette in use.
 */
module ThemeContext {
  /** What `useColorScheme()` returns. */
  datatype DeviceTheme = Scheme(name: string) | NullScheme | UndefinedScheme

  datatype ThemeColors = ThemeColors(
    background: string, card: string, text: string, secondaryText: string, accent: string,
    border: string, shadow: string, navBackground: string, navText: string, navIcon: string)

  const DARK_THEME: ThemeColors := ThemeColors(
    "#121212", "#1E1E1E", "#FFFFFF", "#BBBBBB", "#6842FF",
    "#333333", "rgba(0, 0, 0, 0.5)", "#121212", "#FFFFFF", "#BBBBBB")

  const LIGHT_THEME: ThemeColors := ThemeColors(
    "#EFEEE9", "#F7F6F2", "#333333", "#666666", "#6842FF",
    "#D8D6D2", "rgba(0, 0, 0, 0.08)", "#EFEEE9", "#333333", "#555555")

  /** The initial state: dark for a "dark" or null device scheme (undefined is not null). */
  function InitialDarkMode(deviceTheme: DeviceTheme): bool
  {
    deviceTheme == Scheme("dark") || deviceTheme == NullScheme
  }

  /** The device-theme effect: any non-null scheme sets the flag to whether it is "dark". */
  function FollowDevice(deviceTheme: DeviceTheme, isDarkMode: bool): bool
  {
    if deviceTheme != NullScheme then deviceTheme == Scheme("dark") else isDarkMode
  }

  /** `colors`. */
  function Colors(isDarkMode: bool): ThemeColors
  {
    if isDarkMode then DARK_THEME else LIGHT_THEME
  }

  /**
   * The effect's first run agrees with the initial state, and after any run
   * the flag is dark for "dark", light for every other non-null scheme
   * (undefined included) and unchanged for null.
   */
  lemma FollowDeviceMeaning(deviceTheme: DeviceTheme, isDarkMode: bool)
    ensures FollowDevice(deviceTheme, InitialDarkMode(deviceTheme)) == InitialDarkMode(deviceTheme)
    ensures deviceTheme == NullScheme ==> FollowDevice(deviceTheme, isDarkMode) == isDarkMode
    ensures deviceTheme != NullScheme ==> (FollowDevice(deviceTheme, isDarkMode) <==> deviceTheme == Scheme("dark"))
    ensures !InitialDarkMode(UndefinedScheme) && !FollowDevice(UndefinedScheme, isDarkMode)
  {
  }

  /** The dark palette is in use exactly in dark mode, and the accent is the same in both. */
  lemma PaletteSelection(isDarkMode: bool)
    ensures Colors(isDarkMode) == DARK_THEME <==> isDarkMode
    ensures Colors(isDarkMode).accent == "#6842FF"
    ensures DARK_THEME.accent == LIGHT_THEME.accent
  {
    assert DARK_THEME.background != LIGHT_THEME.background by {
      assert DARK_THEME.background[1] != LIGHT_THEME.background[1];
    }
  }

  class ThemeProvider {
    var isDarkMode: bool

    /** The provider's first render. */
    constructor(deviceTheme: DeviceTheme)
      ensures isDarkMode == InitialDarkMode(deviceTheme)
    {
      isDarkMode := deviceTheme == Scheme("dark") || deviceTheme == NullScheme;
    }

    /** A run of the effect for the current device scheme. */
    method OnDeviceTheme(deviceTheme: DeviceTheme)
      modifies this
      ensures isDarkMode == FollowDevice(deviceTheme, old(isDarkMode))
    {
      if deviceTheme != NullScheme {
        isDarkMode := deviceTheme == Scheme("dark");
      }
    }

    /** `toggleTheme`: the flag is negated, so two toggles restore it. */
    method ToggleTheme()
      modifies this
      ensures isDarkMode == !old(isDarkMode)
    {
      isDarkMode := !isDarkMode;
    }

    /** The palette the context provides. */
    function ProvidedColors(): ThemeColors
      reads this
    {
      Colors(isDarkMode)
    }
  }
}
