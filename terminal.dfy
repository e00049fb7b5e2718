/**
 * The terminal page of script2.js: on Enter the input line is trimmed,
 * echoed after the prompt and dispatched, the first matching branch winning:
 * "gui", a line starting with "themes", a line starting with "set-theme",
 * "clear", an entry of the command table, and otherwise "Command not found.".
 * Theme changes go to the body's class, its custom colour properties and
 * local storage; on page load the stored theme and colours are put back.
 */
module Terminal {
  import opened Common
  import opened JsStrings

  const Prompt := "\nvisitor@terminal.garvit.dev:~$ "
  const SiteUrl := "https://cybobug.github.io/Portfolio/"
  const ThemeKey := "theme"
  const BackgroundKey := "custom-bg-color"
  const TextKey := "custom-text-color"
  const CustomThemeClass := "custom-theme"
  const BackgroundProperty := "--custom-bg-color"
  const TextProperty := "--custom-text-color"

  const InvalidThemeMessage := "Invalid theme."
  const ThemesSyntaxMessage := "Invalid syntax. Use: themes <theme-name>"
  const SetThemeSyntaxMessage := "Invalid syntax. Use: set-theme <bg-color> <text-color>"
  const NotFoundMessage := "Command not found."

  /** The own keys of the `commands` object. */
  datatype Entry = Help | About | Socials | Projects | Themes | Gui | Clear

  /** The entry a name selects, None for a name the object does not hold as its own. */
  function EntryOf(name: string): (r: Option<Entry>)
    ensures r.Some? <==> name in {"help", "about", "socials", "projects", "themes", "gui", "clear"}
    ensures r == Some(Clear) <==> name == "clear"
  {
    if name == "help" then Some(Help)
    else if name == "about" then Some(About)
    else if name == "socials" then Some(Socials)
    else if name == "projects" then Some(Projects)
    else if name == "themes" then Some(Themes)
    else if name == "gui" then Some(Gui)
    else if name == "clear" then Some(Clear)
    else None
  }

  /** The text an entry holds after its first line break (every text but clear's starts with one). */
  function Lines(e: Entry): string
    requires e != Clear
  {
    match e
    case Help =>
      "    Available commands:\n"
        + "      about        - About Garvit Haswani\n"
        + "      projects     - View my projects\n"
        + "      socials      - My social accounts\n"
        + "      themes       - Switch themes\n"
        + "      set-theme    - Set custom theme colors\n"
        + "      gui          - Open my portfolio website\n"
        + "      clear        - Clear the terminal\n"
        + "      "
    case About =>
      "    Hi, my name is Garvit Haswani.\n"
        + "    I'm a Student living in Kanpur, Uttar Pradesh.\n"
        + "    I am passionate about writing codes and developing web applications.\n"
        + "      "
    case Socials =>
      "    Connect with me:\n"
        + "      GitHub: https://github.com/cybobug\n"
        + "      LinkedIn: https://www.linkedin.com/in/garvit-haswani-6850ba29b/\n"
        + "      Twitter: https://x.com/GarvitHaswani\n"
        + "      Medium: https://medium.com/@garvithaswani28\n"
        + "      "
    case Projects =>
      "    My projects:\n"
        + "      1. Portfolio Website - A showcase of my work\n"
        + "      2. Password Manager - A command line password manager that generates and store strong passwords.\n"
        + "      3. Rubber Ducky Payloads - It automates the process using Raspberry Pi Pico in windows 11.\n"
        + "      4. Port Scanner - A command line scanner that scans user specified network ports.\n"
        + "      5. Classical Command Line Games - Games such as treassure Island, Rock paper scissor, and Hangman.\n"
        + "      "
    case Themes =>
      "    Available themes:\n"
        + "      light    - Light mode\n"
        + "      dark     - Dark mode (default)\n"
        + "      blue     - Blue theme\n"
        + "      set-theme - Set custom theme colors (background and text)\n"
        + "    Use: themes <theme-name>\n"
        + "      "
    case Gui =>
      "    Redirecting to my website...\n"
        + "      "
  }

  /** The text an entry holds, the one typed out for it. */
  function Text(e: Entry): string {
    if e == Clear then "" else "\n" + Lines(e)
  }

  /** Only the entry of `clear` holds the empty, falsy, string. */
  lemma TextEmptyIff(e: Entry)
    ensures Text(e) == "" <==> e == Clear
  {
  }

  /** `commands[name]` for an own key, the empty string otherwise. */
  function TextOf(name: string): string {
    match EntryOf(name)
    case Some(e) => Text(e)
    case None => ""
  }

  const ThemeNames: seq<string> := ["light", "dark", "blue"]

  /**
   * The properties every plain JavaScript object inherits from
   * Object.prototype. Each is a function or an object, so `commands[name]`
   * is truthy for it.
   */
  const InheritedNames: set<string> := {
    "constructor", "toString", "toLocaleString", "valueOf", "hasOwnProperty",
    "isPrototypeOf", "propertyIsEnumerable", "__proto__", "__defineGetter__",
    "__defineSetter__", "__lookupGetter__", "__lookupSetter__"
  }

  /** The branch a trimmed input line takes. */
  datatype Action =
    | OpenGui
    | ThemesHelp
    | SwitchTheme(name: string)
    | InvalidTheme
    | ThemesSyntaxError
    | CustomTheme(background: string, text: string)
    | SetThemeSyntaxError
    | ClearOutput
    | TypeCommand(command: string)
    | TypeListed(listed: string)
    | NotFound

  /** The own keys whose text is not empty. */
  const TypedNames: set<string> := {"help", "about", "socials", "projects", "themes", "gui"}

  /** Exactly the names of `TypedNames` hold a non-empty text. */
  lemma TypedNamesIff(value: string)
    ensures value in TypedNames <==> EntryOf(value).Some? && Text(EntryOf(value).value) != ""
  {
    if EntryOf(value).Some? {
      TextEmptyIff(EntryOf(value).value);
    }
  }

  /** `commands[value]` is truthy: an own entry with non-empty text, or one of `inherited`. */
  predicate LookupTruthy(value: string, inherited: set<string>) {
    value in TypedNames || value in inherited
  }

  /** The dispatch chain, with `inherited` standing for the names the table lookup also finds. */
  function ClassifyWith(value: string, inherited: set<string>): Action {
    if value == "gui" then OpenGui
    else if StartsWith(value, "themes") then
      var args := Split(value, ' ');
      if |args| == 1 then ThemesHelp
      else if |args| == 2 then (if args[1] in ThemeNames then SwitchTheme(args[1]) else InvalidTheme)
      else ThemesSyntaxError
    else if StartsWith(value, "set-theme") then
      var args := Split(value, ' ');
      if |args| == 3 then CustomTheme(args[1], args[2]) else SetThemeSyntaxError
    else if value == "clear" then ClearOutput
    else if LookupTruthy(value, inherited) then TypeCommand(value)
    else if value == "socials" || value == "projects" then TypeListed(value)
    else NotFound
  }

  /** The dispatch as the page runs it: the table lookup also finds Object.prototype's names. */
  function ClassifyAsWritten(value: string): (a: Action)
    ensures a != ClassifyWith(value, {}) ==> value in InheritedNames && a == TypeCommand(value)
  {
    ClassifyWith(value, InheritedNames)
  }

  /** The "gui" and "clear" branches, each taken exactly for its own line. */
  lemma {:induction false} ExactBranches(value: string)
    ensures var a := ClassifyWith(value, {});
      && (a == OpenGui <==> value == "gui")
      && (a == ClearOutput <==> value == "clear")
  {
  }

  /** The "themes" and "set-theme" branches, each taken exactly for the lines with its prefix. */
  lemma {:induction false} PrefixBranches(value: string)
    ensures var a := ClassifyWith(value, {});
      && ((a.ThemesHelp? || a.SwitchTheme? || a.InvalidTheme? || a.ThemesSyntaxError?) <==> StartsWith(value, "themes"))
      && ((a.CustomTheme? || a.SetThemeSyntaxError?) <==> !StartsWith(value, "themes") && StartsWith(value, "set-theme"))
  {
  }

  /** The table lookup types exactly the four help texts. */
  lemma {:induction false} LookupBranches(value: string)
    ensures var a := ClassifyWith(value, {});
      && (a.TypeCommand? <==> value in {"help", "about", "socials", "projects"})
      && (a.TypeCommand? ==> a.command == value)
      && !a.TypeListed?
  {
    if value in {"help", "about", "socials", "projects"} {
      HelpNamesArePlain(value);
    }
    assert StartsWith("themes", "themes");
  }

  /** The four help names start with neither theme prefix. */
  lemma {:induction false} HelpNamesArePlain(value: string)
    requires value in {"help", "about", "socials", "projects"}
    ensures !StartsWith(value, "themes") && !StartsWith(value, "set-theme")
  {
    if value == "socials" {
      NotPrefixAt(value, "set-theme", 1);
    } else {
      assert value[0] != 's';
      NotPrefixAt(value, "set-theme", 0);
    }
    assert value[0] != 't';
    NotPrefixAt(value, "themes", 0);
  }

  /** The lookup reports not found exactly for the names outside the table and both theme families. */
  lemma {:induction false} NotFoundBranch(value: string)
    ensures ClassifyWith(value, {}) == NotFound <==>
      && value !in {"gui", "clear", "help", "about", "socials", "projects"}
      && !StartsWith(value, "themes") && !StartsWith(value, "set-theme")
  {
  }

  /**
   * The dispatch with the table lookup restricted to the table's own entries.
   * The branch order decides: only the four help texts are typed from the
   * table, and the socials/projects branch after the lookup is never taken.
   */
  function Classify(value: string): (a: Action)
    ensures a == OpenGui <==> value == "gui"
    ensures (a.ThemesHelp? || a.SwitchTheme? || a.InvalidTheme? || a.ThemesSyntaxError?) <==> StartsWith(value, "themes")
    ensures (a.CustomTheme? || a.SetThemeSyntaxError?) <==> !StartsWith(value, "themes") && StartsWith(value, "set-theme")
    ensures a == ClearOutput <==> value == "clear"
    ensures a.TypeCommand? <==> value in {"help", "about", "socials", "projects"}
    ensures a.TypeCommand? ==> a.command == value
    ensures !a.TypeListed?
    ensures a == NotFound <==>
      && value !in {"gui", "clear", "help", "about", "socials", "projects"}
      && !StartsWith(value, "themes") && !StartsWith(value, "set-theme")
  {
    ExactBranches(value);
    PrefixBranches(value);
    LookupBranches(value);
    NotFoundBranch(value);
    ClassifyWith(value, {})
  }

  /** The socials/projects branch cannot be reached, whatever the lookup finds: the lookup before it already matches both names. */
  lemma ListedBranchUnreachable(value: string, inherited: set<string>)
    ensures !ClassifyWith(value, inherited).TypeListed?
  {
  }

  /** "clear" needs its own branch before the lookup: its table entry is the empty string, which is falsy. */
  lemma ClearIsNotFoundByLookup()
    ensures EntryOf("clear") == Some(Clear) && Text(Clear) == "" && !LookupTruthy("clear", {})
  {
    TypedNamesIff("clear");
  }

  /** A line that is empty after trimming is not found. */
  lemma EmptyLineNotFound(line: string)
    requires AllWhitespace(line)
    ensures Classify(Trim(line)) == NotFound
  {
  }

  /** `themes` alone, or glued to more letters without a space, shows the theme help. */
  lemma ThemesHelpIff(value: string)
    requires StartsWith(value, "themes")
    ensures Classify(value) == ThemesHelp <==> ' ' !in value
  {
    SingleFieldIff(value, ' ');
  }

  /** The first field of a line that starts with a space-free prefix starts with that prefix. */
  lemma HeadKeepsPrefix(value: string, prefix: string)
    requires StartsWith(value, prefix) && ' ' !in prefix
    ensures StartsWith(Split(value, ' ')[0], prefix)
  {
    var k := IndexOf(value, ' ');
    if k >= 0 {
      assert value[..k][..|prefix|] == prefix;
    }
  }

  /** A line classified as a theme switch is a space-free first field starting with "themes", a space, and the theme name. */
  lemma SwitchThemeShape(value: string, name: string) returns (head: string)
    requires Classify(value) == SwitchTheme(name)
    ensures name in ThemeNames && StartsWith(head, "themes") && ' ' !in head && value == head + [' '] + name
  {
    var args := Split(value, ' ');
    JoinSplit(value, ' ');
    assert Join(args[1..], ' ') == args[1];
    HeadKeepsPrefix(value, "themes");
    head := args[0];
    assert head in args;
  }

  /** Conversely, every such line switches to that theme. */
  lemma SwitchThemeOfShape(value: string, head: string, name: string)
    requires name in ThemeNames && StartsWith(head, "themes") && ' ' !in head && value == head + [' '] + name
    ensures Classify(value) == SwitchTheme(name)
  {
    assert ' ' !in name;
    KeepsPrefix(head, [' '] + name, "themes");
    assert value == head + ([' '] + name);
    SplitPair(head, name, ' ');
    assert ClassifyWith(value, {}) == SwitchTheme(name);
  }

  /** A prefix of the first part is a prefix of the whole. */
  lemma KeepsPrefix(first: string, rest: string, prefix: string)
    requires StartsWith(first, prefix)
    ensures StartsWith(first + rest, prefix)
  {
    assert (first + rest)[..|prefix|] == first[..|prefix|];
  }

  /**
   * A theme is switched exactly for a two-field line: a first field starting
   * with "themes", one space, and one of the three theme names.
   */
  lemma SwitchThemeIff(value: string, name: string)
    ensures Classify(value) == SwitchTheme(name) <==>
      name in ThemeNames && exists head :: StartsWith(head, "themes") && ' ' !in head && value == head + [' '] + name
  {
    if Classify(value) == SwitchTheme(name) {
      var head := SwitchThemeShape(value, name);
    }
    if name in ThemeNames && exists head :: StartsWith(head, "themes") && ' ' !in head && value == head + [' '] + name {
      var head :| StartsWith(head, "themes") && ' ' !in head && value == head + [' '] + name;
      SwitchThemeOfShape(value, head, name);
    }
  }

  /**
   * A "themes…" line with one space and a second word outside the list is an
   * invalid theme; one with two or more spaces is a syntax error.
   */
  lemma ThemesErrorsIff(value: string)
    requires StartsWith(value, "themes")
    ensures Classify(value) == InvalidTheme <==> Count(value, ' ') == 1 && value[IndexOf(value, ' ') + 1..] !in ThemeNames
    ensures Classify(value) == ThemesSyntaxError <==> Count(value, ' ') >= 2
  {
    SplitCount(value, ' ');
    assert value != "gui";
    var args := Split(value, ' ');
    if |args| == 2 {
      SecondField(value, ' ');
    }
  }

  /** A line of exactly two fields has the text after its first separator as its second field. */
  lemma SecondField(value: string, sep: char)
    requires |Split(value, sep)| == 2
    ensures IndexOf(value, sep) >= 0 && Split(value, sep)[1] == value[IndexOf(value, sep) + 1..]
  {
    var k := IndexOf(value, sep);
    assert k >= 0;
    var rest := value[k + 1..];
    assert Split(value, sep) == [value[..k]] + Split(rest, sep);
    assert |Split(rest, sep)| == 1;
    assert IndexOf(rest, sep) < 0;
  }

  /** A "set-theme…" line sets custom colours exactly when it holds two spaces, and is a syntax error otherwise. */
  lemma SetThemeErrorIff(value: string)
    requires !StartsWith(value, "themes") && StartsWith(value, "set-theme")
    ensures Classify(value).CustomTheme? <==> Count(value, ' ') == 2
    ensures Classify(value) == SetThemeSyntaxError <==> Count(value, ' ') != 2
  {
    SplitCount(value, ' ');
    assert value != "gui";
  }

  /** A line that sets custom colours is a space-free "set-theme…" head and the two colours, separated by single spaces. */
  lemma CustomThemeShape(value: string, background: string, text: string) returns (head: string)
    requires Classify(value) == CustomTheme(background, text)
    ensures !StartsWith(value, "themes") && StartsWith(head, "set-theme")
    ensures ' ' !in head && ' ' !in background && ' ' !in text
    ensures value == head + [' '] + background + [' '] + text
  {
    CustomThemeFields(value);
    ThreeFields(value, ' ');
    head := Split(value, ' ')[0];
  }

  /** The colours of a custom theme are the second and third of exactly three fields. */
  lemma CustomThemeFields(value: string)
    requires Classify(value).CustomTheme?
    ensures |Split(value, ' ')| == 3 && StartsWith(Split(value, ' ')[0], "set-theme")
    ensures Classify(value) == CustomTheme(Split(value, ' ')[1], Split(value, ' ')[2])
  {
    assert Classify(value) == ClassifyWith(value, {});
    HeadKeepsPrefix(value, "set-theme");
  }

  /** Conversely, every such line sets exactly those colours. */
  lemma CustomThemeOfShape(value: string, head: string, background: string, text: string)
    requires !StartsWith(value, "themes") && StartsWith(head, "set-theme")
    requires ' ' !in head && ' ' !in background && ' ' !in text
    requires value == head + [' '] + background + [' '] + text
    ensures Classify(value) == CustomTheme(background, text)
  {
    KeepsPrefix(head, [' '] + background + [' '] + text, "set-theme");
    assert value == head + ([' '] + background + [' '] + text);
    SplitTriple(head, background, text, ' ');
    assert ClassifyWith(value, {}) == CustomTheme(background, text);
  }

  /**
   * Custom colours are set exactly for a three-field line that does not
   * start with "themes": a first field starting with "set-theme", then the
   * background and the text colour, verbatim.
   */
  lemma CustomThemeIff(value: string, background: string, text: string)
    ensures Classify(value) == CustomTheme(background, text) <==>
      && !StartsWith(value, "themes") && ' ' !in background && ' ' !in text
      && exists head :: StartsWith(head, "set-theme") && ' ' !in head && value == head + [' '] + background + [' '] + text
  {
    if Classify(value) == CustomTheme(background, text) {
      var head := CustomThemeShape(value, background, text);
    }
    if && !StartsWith(value, "themes") && ' ' !in background && ' ' !in text
       && exists head :: StartsWith(head, "set-theme") && ' ' !in head && value == head + [' '] + background + [' '] + text
    {
      var head :| StartsWith(head, "set-theme") && ' ' !in head && value == head + [' '] + background + [' '] + text;
      CustomThemeOfShape(value, head, background, text);
    }
  }

  /** The finding: the page's lookup treats Object.prototype's names as commands instead of reporting them not found. */
  lemma InheritedNamesAreDispatched(value: string)
    requires value in InheritedNames
    ensures ClassifyAsWritten(value) == TypeCommand(value)
    ensures Classify(value) == NotFound
  {
    assert value[1] != 'h' && value[1] != 'e';
    NotPrefixAt(value, "themes", 1);
    NotPrefixAt(value, "set-theme", 1);
  }

  // ---- the page state ----

  /** `body.style.setProperty(name, value)`: an empty value removes the property. */
  function SetStyleProperty(style: map<string, string>, name: string, value: string): (r: map<string, string>)
    ensures value == "" ==> name !in r
    ensures value != "" ==> name in r && r[name] == value
    ensures r - {name} == style - {name}
  {
    if value == "" then style - {name} else style[name := value]
  }

  /** `localStorage.getItem(key)` as `setProperty` sees it: a missing entry (null) becomes the empty string. */
  function StoredOrEmpty(storage: map<string, string>, key: string): string {
    if key in storage then storage[key] else ""
  }

  /** What a reload keeps or rebuilds: the body's class, its inline colour properties, local storage. */
  datatype Settings = Settings(bodyClass: string, style: map<string, string>, storage: map<string, string>)

  /** The rest of the page: the output text, the location once redirected, the terminal's shake. */
  datatype Screen = Screen(output: string, location: Option<string>, shaking: bool)

  datatype Page = Page(screen: Screen, settings: Settings)

  /** The only inline properties the page ever sets are its two custom colours. */
  predicate ColoursOnly(s: Settings) {
    forall name :: name in s.style ==> name == BackgroundProperty || name == TextProperty
  }

  /**
   * Page load: a stored, non-empty theme becomes the body class, and only the
   * "custom-theme" theme brings its two stored colours back.
   */
  function Restore(initialClass: string, saved: map<string, string>): (s: Settings)
    ensures s.storage == saved && ColoursOnly(s)
    ensures s.bodyClass == (if ThemeKey in saved && saved[ThemeKey] != "" then saved[ThemeKey] else initialClass)
    ensures !(ThemeKey in saved && saved[ThemeKey] == CustomThemeClass) ==> s.style == map[]
    ensures ThemeKey in saved && saved[ThemeKey] == CustomThemeClass ==>
      && (BackgroundProperty in s.style <==> StoredOrEmpty(saved, BackgroundKey) != "")
      && (BackgroundProperty in s.style ==> s.style[BackgroundProperty] == saved[BackgroundKey])
      && (TextProperty in s.style <==> StoredOrEmpty(saved, TextKey) != "")
      && (TextProperty in s.style ==> s.style[TextProperty] == saved[TextKey])
  {
    var savedTheme := if ThemeKey in saved then Some(saved[ThemeKey]) else None;
    var bodyClass := if savedTheme.Some? && savedTheme.value != "" then savedTheme.value else initialClass;
    var style :=
      if savedTheme == Some(CustomThemeClass) then
        SetStyleProperty(SetStyleProperty(map[], BackgroundProperty, StoredOrEmpty(saved, BackgroundKey)),
                         TextProperty, StoredOrEmpty(saved, TextKey))
      else map[];
    Settings(bodyClass, style, saved)
  }

  /** The screen of a freshly loaded page. */
  const Blank := Screen("", None, false)

  /** The settings after an action: theme switches and custom themes write the class, the colours and storage. */
  function Apply(s: Settings, a: Action): (r: Settings)
    ensures !a.SwitchTheme? && !a.CustomTheme? ==> r == s
    ensures a.SwitchTheme? ==> r.style == s.style
    ensures r.storage.Keys == s.storage.Keys + (if a.SwitchTheme? then {ThemeKey} else if a.CustomTheme? then {ThemeKey, BackgroundKey, TextKey} else {})
  {
    match a
    case SwitchTheme(name) =>
      s.(bodyClass := "theme-" + name, storage := s.storage[ThemeKey := "theme-" + name])
    case CustomTheme(background, text) =>
      s.(bodyClass := CustomThemeClass,
         style := SetStyleProperty(SetStyleProperty(s.style, BackgroundProperty, background), TextProperty, text),
         storage := s.storage[ThemeKey := CustomThemeClass][BackgroundKey := background][TextKey := text])
    case _ => s
  }

  /** The screen after the echo of `value` and the action (the typing effect taken as finished). */
  function Show(sc: Screen, value: string, a: Action): (r: Screen)
    ensures r.location != sc.location ==> a == OpenGui && r.location == Some(SiteUrl)
    ensures r.shaking != sc.shaking ==> a == NotFound && r.shaking
  {
    var echoed := sc.output + Prompt + value + "\n";
    match a
    case OpenGui => sc.(output := echoed + Text(Gui), location := Some(SiteUrl))
    case ThemesHelp => sc.(output := echoed + Text(Themes))
    case SwitchTheme(name) => sc.(output := echoed + "Theme switched to " + name + ".")
    case InvalidTheme => sc.(output := echoed + InvalidThemeMessage)
    case ThemesSyntaxError => sc.(output := echoed + ThemesSyntaxMessage)
    case CustomTheme(background, text) =>
      sc.(output := echoed + "Custom theme set with background: " + background + ", text: " + text + ".")
    case SetThemeSyntaxError => sc.(output := echoed + SetThemeSyntaxMessage)
    case ClearOutput => sc.(output := "")
    case TypeCommand(name) => sc.(output := echoed + TextOf(name))
    case TypeListed(name) => sc.(output := echoed + TextOf(name))
    case NotFound => sc.(output := echoed + NotFoundMessage, shaking := true)
  }

  /** The page after Enter on `line`. */
  function Step(p: Page, line: string): Page {
    var value := Trim(line);
    var a := Classify(value);
    Page(Show(p.screen, value, a), Apply(p.settings, a))
  }

  /** Only a line starting with "themes" or "set-theme" changes the settings. */
  lemma SettingsChangeOnlyOnThemeLines(s: Settings, line: string)
    ensures Apply(s, Classify(Trim(line))) != s ==> StartsWith(Trim(line), "themes") || StartsWith(Trim(line), "set-theme")
  {
  }

  /** Apart from the custom colours, no inline property is ever set. */
  lemma ApplyKeepsColoursOnly(s: Settings, a: Action)
    requires ColoursOnly(s)
    ensures ColoursOnly(Apply(s, a))
  {
  }

  /** Every line but `clear` keeps what was printed and appends its echo: the output only grows. */
  lemma OutputOnlyGrows(sc: Screen, value: string, a: Action)
    requires a != ClearOutput
    ensures sc.output + Prompt + value + "\n" <= Show(sc, value, a).output
  {
  }

  /** Only `gui` redirects, and only an unrecognised line shakes the terminal. */
  lemma RedirectAndShake(sc: Screen, line: string)
    ensures var value := Trim(line); var after := Show(sc, value, Classify(value));
      && (after.location != sc.location ==> value == "gui" && after.location == Some(SiteUrl))
      && (after.shaking != sc.shaking ==> Classify(value) == NotFound)
  {
  }

  /** A line that is blank after trimming echoes an empty command and is not found; the settings stay. */
  lemma BlankLineNotFound(p: Page, line: string)
    requires AllWhitespace(line)
    ensures Step(p, line).settings == p.settings
    ensures Step(p, line).screen == p.screen.(output := p.screen.output + Prompt + "\n" + NotFoundMessage, shaking := true)
  {
    var value := Trim(line);
    assert value == "";
    EmptyLineNotFound(line);
    ShowNotFound(p.screen, value);
    assert Prompt + value == Prompt;
  }

  lemma ShowNotFound(sc: Screen, value: string)
    ensures Show(sc, value, NotFound) == sc.(output := sc.output + Prompt + value + "\n" + NotFoundMessage, shaking := true)
  {
  }

  /** A theme chosen with `themes <name>` is the body class again after a reload, without colours. */
  lemma SwitchedThemeSurvivesReload(s: Settings, initialClass: string, name: string)
    requires name in ThemeNames
    ensures var after := Apply(s, SwitchTheme(name));
      Restore(initialClass, after.storage) == after.(style := map[])
  {
  }

  /** A reload after `set-theme <bg> <text>` rebuilds exactly the settings the command made. */
  lemma CustomThemeSurvivesReload(s: Settings, initialClass: string, background: string, text: string)
    requires ColoursOnly(s)
    ensures var after := Apply(s, CustomTheme(background, text));
      Restore(initialClass, after.storage) == after
  {
    var after := Apply(s, CustomTheme(background, text));
    var restored := Restore(initialClass, after.storage);
    assert StoredOrEmpty(after.storage, BackgroundKey) == background;
    assert StoredOrEmpty(after.storage, TextKey) == text;
    assert restored.style == after.style;
  }

  class Terminal {
    var output: string
    var location: Option<string>
    var shaking: bool
    var bodyClass: string
    var style: map<string, string>
    var storage: map<string, string>

    function Snapshot(): Page
      reads this
    {
      Page(Screen(output, location, shaking), Settings(bodyClass, style, storage))
    }

    /** Page load with the body's initial class and the saved local storage. */
    constructor (initialClass: string, saved: map<string, string>)
      ensures Snapshot() == Page(Blank, Restore(initialClass, saved))
    {
      output := "";
      location := None;
      shaking := false;
      storage := saved;
      var savedTheme := if ThemeKey in saved then Some(saved[ThemeKey]) else None;
      bodyClass := if savedTheme.Some? && savedTheme.value != "" then savedTheme.value else initialClass;
      var initialStyle := map[];
      if savedTheme == Some(CustomThemeClass) {
        initialStyle := SetStyleProperty(initialStyle, BackgroundProperty, StoredOrEmpty(saved, BackgroundKey));
        initialStyle := SetStyleProperty(initialStyle, TextProperty, StoredOrEmpty(saved, TextKey));
      }
      style := initialStyle;
    }

    /** The screen and the settings as `Show` and `Apply` see them. */
    function CurrentScreen(): Screen
      reads this
    {
      Screen(output, location, shaking)
    }

    function CurrentSettings(): Settings
      reads this
    {
      Settings(bodyClass, style, storage)
    }

    /**
     * The Enter handler: the trimmed line is chosen a branch by `Classify`;
     * the branch's output goes to the screen and its theme change to the
     * settings.
     */
    method HandleEnter(line: string)
      modifies this
      ensures Snapshot() == Step(old(Snapshot()), line)
    {
      var value := Trim(line);
      var action := Classify(value);
      ShowAction(value, action);
      ApplyAction(action);
    }

    /** The echo of `value` and what the branch `action` prints, redirects or shakes. */
    method ShowAction(value: string, action: Action)
      modifies this
      ensures CurrentScreen() == Show(old(CurrentScreen()), value, action)
      ensures CurrentSettings() == old(CurrentSettings())
    {
      var echoed := output + Prompt + value + "\n";
      match action {
        case OpenGui =>
          output := echoed + Text(Gui);
          location := Some(SiteUrl);
        case ThemesHelp =>
          output := echoed + Text(Themes);
        case SwitchTheme(theme) =>
          output := echoed + "Theme switched to " + theme + ".";
        case InvalidTheme =>
          output := echoed + InvalidThemeMessage;
        case ThemesSyntaxError =>
          output := echoed + ThemesSyntaxMessage;
        case CustomTheme(background, text) =>
          output := echoed + "Custom theme set with background: " + background + ", text: " + text + ".";
        case SetThemeSyntaxError =>
          output := echoed + SetThemeSyntaxMessage;
        case ClearOutput =>
          output := "";
        case TypeCommand(name) =>
          output := echoed + TextOf(name);
        case TypeListed(name) =>
          output := echoed + TextOf(name);
        case NotFound =>
          output := echoed + NotFoundMessage;
          shaking := true;
      }
    }

    /** The theme change of the branch `action`: body class, colour properties and local storage. */
    method ApplyAction(action: Action)
      modifies this
      ensures CurrentSettings() == Apply(old(CurrentSettings()), action)
      ensures CurrentScreen() == old(CurrentScreen())
    {
      match action {
        case SwitchTheme(theme) =>
          bodyClass := "theme-" + theme;
          storage := storage[ThemeKey := "theme-" + theme];
        case CustomTheme(background, text) =>
          bodyClass := CustomThemeClass;
          style := SetStyleProperty(style, BackgroundProperty, background);
          style := SetStyleProperty(style, TextProperty, text);
          storage := storage[ThemeKey := CustomThemeClass];
          storage := storage[BackgroundKey := background];
          storage := storage[TextKey := text];
        case _ =>
      }
    }
  }
}
