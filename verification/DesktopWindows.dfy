/**
 Desktop windows: the normal form their stored state is brought to, the migration of a retired
 window kind, and the z-order (backend/internal/domain/desktop.go).

 Cleaning metadata walks a Go map in no fixed order; when two keys become equal by cleaning,
 either value may win. Normalizing is therefore a relation between a window and its results.
 */
module DesktopWindows {
  import opened Text
  import opened DisplayText

  datatype Window = Window(
    id: string, appID: string, pluginID: string, frontendModule: string, kind: string, title: string,
    x: int, y: int, width: int, height: int, minimized: bool, maximized: bool, z: int,
    sessionID: string, metadata: map<string, string>)

  // ---------------------------------------------------------------- migration

  /** The lower-casing of the ASCII letters and of the blank. */
  ghost predicate LowersAscii(u: Unicode) {
    && (forall c :: 'A' <= c <= 'Z' ==> u.lower(c) == (c as int + 32) as char)
    && (forall c :: 'a' <= c <= 'z' ==> u.lower(c) == c)
    && u.lower(' ') == ' '
  }

  const LEGACY_APP := "docker_ps"
  const LEGACY_TITLE := "docker watch"

  predicate LegacyNamed(u: Unicode, appID: string, title: string) {
    TrimSpace(appID) == LEGACY_APP || Lowered(u.lower, TrimSpace(title)) == LEGACY_TITLE
  }

  predicate Legacy(u: Unicode, w: Window) {
    LegacyNamed(u, w.appID, w.title)
  }

  /** `migrateLegacyVirtualDesktopWindow`. */
  function Migrate(u: Unicode, w: Window): Window {
    if !Legacy(u, w) then w
    else w.(appID := "containers", pluginID := "builtin", frontendModule := "containers", kind := "containers",
            title := "Containers", sessionID := "", metadata := w.metadata["data_refresh_interval_seconds" := "5"])
  }

  // ---------------------------------------------------------------- metadata

  predicate Yields(u: Unicode, key: string, value: string, k: string, v: string) {
    && k == Token(u, key, 64) && v == MetadataValue(value, 1024)
    && k != "" && v != ""
  }

  predicate Kept(u: Unicode, key: string, value: string) {
    Token(u, key, 64) != "" && MetadataValue(value, 1024) != ""
  }

  /** `clean` is one possible outcome of cleaning `raw`. An absent Go map is an empty one here. */
  ghost predicate CleanedMetadata(u: Unicode, raw: map<string, string>, clean: map<string, string>) {
    && (forall k :: k in clean ==> exists key :: key in raw && Yields(u, key, raw[key], k, clean[k]))
    && (forall key :: key in raw && Kept(u, key, raw[key]) ==> Token(u, key, 64) in clean)
  }

  method SanitizeMetadata(u: Unicode, raw: map<string, string>) returns (clean: map<string, string>)
    ensures CleanedMetadata(u, raw, clean)
  {
    clean := map[];
    var left := raw.Keys;
    while left != {}
      invariant left <= raw.Keys
      invariant forall k :: k in clean ==> exists key :: key in raw && Yields(u, key, raw[key], k, clean[k])
      invariant forall key :: key in raw && key !in left && Kept(u, key, raw[key]) ==> Token(u, key, 64) in clean
      decreases |left|
    {
      var key :| key in left;
      left := left - {key};
      var cleanKey := SanitizeToken(u, key, 64);
      var cleanValue := SanitizeMetadataValue(raw[key], 1024);
      if cleanKey == "" || cleanValue == "" { continue; }
      assert Yields(u, key, raw[key], cleanKey, cleanValue);
      clean := clean[cleanKey := cleanValue];
    }
  }

  // ---------------------------------------------------------------- normal form

  predicate IsToken(u: Unicode, s: string, max: int) {
    AllTokenRunes(u, s) && Fits(s, max)
  }

  function Or(s: string, fallback: string): string {
    if s == "" then fallback else s
  }

  function AtLeast(low: int, n: int): int {
    if n < low then low else n
  }

  /** `VirtualDesktopWindowTitle`. */
  function KindTitle(kind: string): string {
    match TrimSpace(kind)
    case "terminal" => "Terminal"
    case "package_manager" => "Package Manager"
    case "process_monitor" => "Task Manager"
    case "file_manager" => "File Manager"
    case "containers" => "Containers"
    case "logs" => "Logs"
    case "services" => "Services"
    case "custom_shortcuts" => "Custom Shortcuts"
    case "firewall" => "Firewall"
    case "disks" => "Disks"
    case "speed_test" => "Test Speed"
    case "editor" => "Editor"
    case _ => "Window"
  }

  /** What `Normalize` does after migration, with `newId` as the generated id and `clean` as the cleaned metadata. */
  function Tidied(u: Unicode, w: Window, index: nat, newId: string, clean: map<string, string>): Window {
    var kind := Or(Token(u, w.kind, 64), "terminal");
    Window(Or(Token(u, w.id, 128), newId), Token(u, w.appID, 128), Token(u, w.pluginID, 128),
           Or(Token(u, w.frontendModule, 128), kind), kind, Or(Label(w.title, 120), KindTitle(kind)),
           AtLeast(0, w.x), AtLeast(0, w.y), AtLeast(240, w.width), AtLeast(160, w.height),
           w.minimized, w.maximized, if w.z <= 0 then index + 1 else w.z,
           Token(u, w.sessionID, 128), clean)
  }

  /** `n` is a result of normalizing `w` at position `index`. */
  ghost predicate Normalizes(u: Unicode, w: Window, index: nat, newId: string, n: Window) {
    && n == Tidied(u, Migrate(u, w), index, newId, n.metadata)
    && CleanedMetadata(u, Migrate(u, w).metadata, n.metadata)
  }

  /** `n` is a result of normalizing `w`, wherever it stands and whatever identifier is generated. */
  ghost predicate NormalizesTo(u: Unicode, w: Window, n: Window) {
    exists index: nat, newId :: newId != "" && IsToken(u, newId, 128) && Normalizes(u, w, index, newId, n)
  }

  method NormalizeWindow(u: Unicode, w: Window, index: nat, newId: string) returns (n: Window)
    ensures Normalizes(u, w, index, newId, n)
  {
    n := Tidy(u, Migrate(u, w), index, newId);
  }

  method Tidy(u: Unicode, w: Window, index: nat, newId: string) returns (n: Window)
    ensures n == Tidied(u, w, index, newId, n.metadata)
    ensures CleanedMetadata(u, w.metadata, n.metadata)
  {
    var kind := TokenOr(u, w.kind, 64, "terminal");
    var id := TokenOr(u, w.id, 128, newId);
    var appID := SanitizeToken(u, w.appID, 128);
    var pluginID := SanitizeToken(u, w.pluginID, 128);
    var frontendModule := TokenOr(u, w.frontendModule, 128, kind);
    var title := SanitizeLabel(w.title, 120);
    var sessionID := SanitizeToken(u, w.sessionID, 128);
    var metadata := SanitizeMetadata(u, w.metadata);
    n := Window(id, appID, pluginID, frontendModule, kind, Or(title, KindTitle(kind)),
                AtLeast(0, w.x), AtLeast(0, w.y), AtLeast(240, w.width), AtLeast(160, w.height),
                w.minimized, w.maximized, if w.z <= 0 then index + 1 else w.z, sessionID, metadata);
  }

  method TokenOr(u: Unicode, value: string, max: int, fallback: string) returns (out: string)
    requires max > 0
    ensures out == Or(Token(u, value, max), fallback)
  {
    out := SanitizeToken(u, value, max);
    if out == "" { out := fallback; }
  }

  predicate InBounds(w: Window) {
    w.x >= 0 && w.y >= 0 && w.width >= 240 && w.height >= 160 && w.z >= 1
  }

  predicate CleanMap(u: Unicode, m: map<string, string>) {
    forall k :: k in m ==> k != "" && IsToken(u, k, 64) && m[k] != "" && CleanValue(m[k], 1024)
  }

  /** The normal form: bounds hold and every text field is what its sanitizer leaves alone. */
  predicate Clean(u: Unicode, w: Window) {
    && InBounds(w)
    && w.id != "" && IsToken(u, w.id, 128)
    && IsToken(u, w.appID, 128) && IsToken(u, w.pluginID, 128) && IsToken(u, w.sessionID, 128)
    && w.frontendModule != "" && IsToken(u, w.frontendModule, 128)
    && w.kind != "" && IsToken(u, w.kind, 64)
    && w.title != "" && CleanLabel(w.title, 120)
    && CleanMap(u, w.metadata)
  }

  lemma TokenIsToken(u: Unicode, s: string, max: int)
    requires Sane(u)
    ensures IsToken(u, Token(u, s, max), max)
    ensures IsToken(u, s, max) ==> Token(u, s, max) == s
  {
    TokenIsFixed(u, s, max);
  }

  /** Letters, with a blank at `gap` if that lies inside. */
  predicate Words(s: string, gap: int) {
    && 0 < |s| <= 30
    && gap != 0 && gap != |s| - 1
    && forall i :: 0 <= i < |s| ==> if i == gap then s[i] == ' ' else 'A' <= s[i] <= 'z'
  }

  lemma WordsAreClean(s: string, gap: int)
    requires Words(s, gap)
    ensures CleanLabel(s, 120)
  {
    ShortFits(s, 120);
  }

  const ONE_WORD := {"Terminal", "Containers", "Logs", "Services", "Firewall", "Disks", "Editor", "Window"}

  const TWO_WORDS := {"Package Manager", "Task Manager", "File Manager", "Custom Shortcuts", "Test Speed"}

  lemma TwoWordsAreClean(t: string)
    requires t in TWO_WORDS
    ensures Words(t, if |t| == 15 then 7 else if |t| == 16 then 6 else 4)
  {
  }

  lemma KindTitleIsClean(kind: string)
    ensures KindTitle(kind) != "" && CleanLabel(KindTitle(kind), 120)
  {
    var t := KindTitle(kind);
    if t in ONE_WORD {
      WordsAreClean(t, -1);
    } else {
      TwoWordsAreClean(t);
      WordsAreClean(t, if |t| == 15 then 7 else if |t| == 16 then 6 else 4);
    }
  }

  lemma LiteralTokens(u: Unicode)
    requires Sane(u)
    ensures IsToken(u, "terminal", 64)
    ensures IsToken(u, "containers", 64) && IsToken(u, "containers", 128)
  {
    ShortFits("terminal", 64);
    ShortFits("containers", 64);
    ShortFits("containers", 128);
  }

  lemma CleanedIsClean(u: Unicode, raw: map<string, string>, clean: map<string, string>)
    requires Sane(u) && CleanedMetadata(u, raw, clean)
    ensures CleanMap(u, clean)
  {
    forall k | k in clean
      ensures k != "" && IsToken(u, k, 64) && clean[k] != "" && CleanValue(clean[k], 1024)
    {
      var key :| key in raw && Yields(u, key, raw[key], k, clean[k]);
      TokenIsToken(u, key, 64);
      MetadataValueIsFixed(raw[key], 1024);
    }
  }

  lemma CleanEntryYieldsItself(u: Unicode, key: string, value: string)
    requires Sane(u) && key != "" && IsToken(u, key, 64) && value != "" && CleanValue(value, 1024)
    ensures Yields(u, key, value, key, value)
  {
    TokenIsToken(u, key, 64);
    MetadataValueIsFixed(value, 1024);
  }

  lemma SameEntries(u: Unicode, raw: map<string, string>, clean: map<string, string>)
    requires CleanedMetadata(u, raw, clean)
    requires forall key :: key in raw ==> Yields(u, key, raw[key], key, raw[key])
    ensures clean == raw
  {
    forall key | key in raw ensures key in clean { assert Kept(u, key, raw[key]); }
    forall k | k in clean ensures k in raw && clean[k] == raw[k] {
      var key :| key in raw && Yields(u, key, raw[key], k, clean[k]);
    }
  }

  /** Cleaning again changes nothing, in whatever order the map is walked. */
  lemma CleanMapStays(u: Unicode, raw: map<string, string>, clean: map<string, string>)
    requires Sane(u) && CleanMap(u, raw) && CleanedMetadata(u, raw, clean)
    ensures clean == raw
  {
    forall key | key in raw ensures Yields(u, key, raw[key], key, raw[key]) {
      CleanEntryYieldsItself(u, key, raw[key]);
    }
    SameEntries(u, raw, clean);
  }

  /** Every result of normalizing is in normal form, whatever went in. */
  lemma NormalFormIsClean(u: Unicode, w: Window, n: Window)
    requires Sane(u) && NormalizesTo(u, w, n)
    ensures Clean(u, n)
  {
    var m := Migrate(u, w);
    CleanedIsClean(u, m.metadata, n.metadata);
    TokenIsToken(u, m.id, 128);
    TokenIsToken(u, m.appID, 128);
    TokenIsToken(u, m.pluginID, 128);
    TokenIsToken(u, m.frontendModule, 128);
    TokenIsToken(u, m.kind, 64);
    TokenIsToken(u, m.sessionID, 128);
    LabelIsClean(m.title, 120);
    LiteralTokens(u);
    KindTitleIsClean(n.kind);
    FitsLess(n.kind, 64, 128);
  }

  lemma CleanStays(u: Unicode, w: Window, n: Window)
    requires Sane(u) && Clean(u, w) && !Legacy(u, w) && NormalizesTo(u, w, n)
    ensures n == w
  {
    CleanMapStays(u, w.metadata, n.metadata);
    TokenIsToken(u, w.id, 128);
    TokenIsToken(u, w.appID, 128);
    TokenIsToken(u, w.pluginID, 128);
    TokenIsToken(u, w.frontendModule, 128);
    TokenIsToken(u, w.kind, 64);
    TokenIsToken(u, w.sessionID, 128);
    CleanLabelIsFixed(w.title, 120);
  }

  // ---------------------------------------------------------------- convergence

  /** The names the window ends up with carry a marker that its own names did not. */
  predicate MarkedBySanitizing(u: Unicode, w: Window) {
    && !Legacy(u, w)
    && (Token(u, w.appID, 128) == LEGACY_APP || Lowered(u.lower, Label(w.title, 120)) == LEGACY_TITLE)
  }

  lemma KindTitlesAreNotLegacy(u: Unicode, kind: string)
    requires LowersAscii(u)
    ensures Lowered(u.lower, KindTitle(kind)) != LEGACY_TITLE
  {
    var t := KindTitle(kind);
    var low := Lowered(u.lower, t);
    if |t| == 12 { assert low[0] == u.lower(t[0]); }
  }

  lemma ContainersIsAName(u: Unicode)
    requires Sane(u)
    ensures Token(u, "containers", 128) == "containers" && Label("Containers", 120) == "Containers"
  {
    LiteralTokens(u);
    TokenIsToken(u, "containers", 128);
    WordsAreClean("Containers", -1);
    CleanLabelIsFixed("Containers", 120);
  }

  /** A migrated window is no longer a legacy one. */
  lemma MigratedIsNotLegacy(u: Unicode, w: Window, n: Window)
    requires Sane(u) && Legacy(u, w) && NormalizesTo(u, w, n)
    ensures n.appID == "containers" && n.title == "Containers" && !Legacy(u, n)
  {
    ContainersIsAName(u);
  }

  /** What else the migration and the tidying leave in a migrated window. */
  lemma MigratedWindowSays(u: Unicode, w: Window, n: Window)
    requires Sane(u) && Legacy(u, w) && NormalizesTo(u, w, n)
    ensures n.kind == "containers" && n.frontendModule == "containers" && n.pluginID == "builtin" && n.sessionID == ""
    ensures n.minimized == w.minimized && n.maximized == w.maximized
  {
    MigratedNames(u);
    ContainersIsAName(u);
    var index: nat, newId :| newId != "" && IsToken(u, newId, 128) && Normalizes(u, w, index, newId, n);
    TidiedKeepsNames(u, Migrate(u, w), index, newId, n.metadata);
  }

  lemma MigratedNames(u: Unicode)
    requires Sane(u)
    ensures Token(u, "containers", 64) == "containers"
    ensures Token(u, "builtin", 128) == "builtin" && Token(u, "", 128) == ""
  {
    LiteralTokens(u);
    TokenIsToken(u, "containers", 64);
    ShortFits("builtin", 128);
    TokenIsToken(u, "builtin", 128);
    TokenIsToken(u, "", 128);
  }

  /** Names that the sanitizer leaves alone come through tidying. */
  lemma TidiedKeepsNames(u: Unicode, w: Window, index: nat, newId: string, clean: map<string, string>)
    requires Token(u, w.kind, 64) == w.kind != "" && Token(u, w.frontendModule, 128) == w.frontendModule != ""
    requires Token(u, w.pluginID, 128) == w.pluginID && Token(u, w.sessionID, 128) == w.sessionID
    ensures var n := Tidied(u, w, index, newId, clean);
            && n.kind == w.kind && n.frontendModule == w.frontendModule && n.pluginID == w.pluginID
            && n.sessionID == w.sessionID && n.minimized == w.minimized && n.maximized == w.maximized
  {
  }

  /** The retired windows: by app id, or by title in any of its spellings with ASCII letters. */
  lemma RetiredNamesAreLegacy(u: Unicode, w: Window)
    requires LowersAscii(u)
    ensures w.appID == "docker_ps" ==> Legacy(u, w)
    ensures w.title == "Docker Watch" ==> Legacy(u, w)
  {
    TrimSpaceTrims("docker_ps");
    TrimSpaceTrims("Docker Watch");
    var low := Lowered(u.lower, "Docker Watch");
    assert low == LEGACY_TITLE;
  }

  /** The migration sets the refresh interval and keeps every other entry. */
  lemma MigrationRefreshes(u: Unicode, w: Window)
    requires Legacy(u, w)
    ensures var m := Migrate(u, w).metadata;
            && "data_refresh_interval_seconds" in m && m["data_refresh_interval_seconds"] == "5"
            && (forall key :: key != "data_refresh_interval_seconds" ==>
                  (key in m <==> key in w.metadata) && (key in m ==> m[key] == w.metadata[key]))
    ensures Migrate(u, w).id == w.id && Migrate(u, w).x == w.x && Migrate(u, w).y == w.y && Migrate(u, w).z == w.z
    ensures Migrate(u, w).width == w.width && Migrate(u, w).height == w.height
  {
  }

  /** Sizes, positions and depth: a value in bounds is kept, and one below becomes the bound. */
  lemma BoundsSay(u: Unicode, w: Window, index: nat, newId: string, n: Window)
    requires Normalizes(u, w, index, newId, n)
    ensures n.width == (if w.width >= 240 then w.width else 240)
    ensures n.height == (if w.height >= 160 then w.height else 160)
    ensures n.x == (if w.x >= 0 then w.x else 0) && n.y == (if w.y >= 0 then w.y else 0)
    ensures n.z == (if w.z > 0 then w.z else index + 1)
    ensures n.minimized == w.minimized && n.maximized == w.maximized
  {
  }

  /** Names: what the sanitizer leaves is kept, and an empty name gets its default. */
  lemma NamesSay(u: Unicode, w: Window, index: nat, newId: string, n: Window)
    requires !Legacy(u, w) && Normalizes(u, w, index, newId, n)
    ensures n.id == (if Token(u, w.id, 128) != "" then Token(u, w.id, 128) else newId)
    ensures n.kind == (if Token(u, w.kind, 64) != "" then Token(u, w.kind, 64) else "terminal")
    ensures n.frontendModule
            == (if Token(u, w.frontendModule, 128) != "" then Token(u, w.frontendModule, 128) else n.kind)
    ensures n.appID == Token(u, w.appID, 128) && n.pluginID == Token(u, w.pluginID, 128)
    ensures n.sessionID == Token(u, w.sessionID, 128)
    ensures Label(w.title, 120) != "" ==> n.title == Label(w.title, 120)
    ensures Label(w.title, 120) == "" ==> n.title == KindTitle(n.kind)
  {
  }

  /** The kinds that have a title of their own, and that title. */
  const TITLES := map[
    "terminal" := "Terminal", "package_manager" := "Package Manager", "process_monitor" := "Task Manager",
    "file_manager" := "File Manager", "containers" := "Containers", "logs" := "Logs", "services" := "Services",
    "custom_shortcuts" := "Custom Shortcuts", "firewall" := "Firewall", "disks" := "Disks",
    "speed_test" := "Test Speed", "editor" := "Editor"]

  lemma KindTitlesSay(kind: string)
    ensures KindTitle(kind) == if TrimSpace(kind) in TITLES then TITLES[TrimSpace(kind)] else "Window"
  {
  }

  /** Whether a result is a legacy window can be read off the names that went in. */
  lemma LegacyResult(u: Unicode, w: Window, n: Window)
    requires Sane(u) && LowersAscii(u) && NormalizesTo(u, w, n)
    ensures Legacy(u, n) <==> MarkedBySanitizing(u, w)
  {
    if Legacy(u, w) {
      MigratedIsNotLegacy(u, w, n);
    } else {
      TokenIsToken(u, w.appID, 128);
      TokensAreTrimmed(u, n.appID);
      TrimSpaceTrims(n.appID);
      LabelIsClean(w.title, 120);
      KindTitleIsClean(n.kind);
      TrimSpaceTrims(n.title);
      KindTitlesAreNotLegacy(u, n.kind);
    }
  }

  /** Normalizing once is enough exactly unless sanitizing itself produced a legacy name. */
  lemma OnceIsFixedExactlyWhen(u: Unicode, w: Window, n: Window, m: Window)
    requires Sane(u) && LowersAscii(u)
    requires NormalizesTo(u, w, n) && NormalizesTo(u, n, m)
    ensures m == n <==> !MarkedBySanitizing(u, w)
  {
    NormalFormIsClean(u, w, n);
    LegacyResult(u, w, n);
    if Legacy(u, n) {
      MigratedIsNotLegacy(u, n, m);
    } else {
      CleanStays(u, n, m);
    }
  }

  /** Normalizing twice is always enough: a third time changes nothing. */
  lemma TwiceIsFixed(u: Unicode, w: Window, n: Window, m: Window, o: Window)
    requires Sane(u)
    requires NormalizesTo(u, w, n) && NormalizesTo(u, n, m) && NormalizesTo(u, m, o)
    ensures o == m
  {
    NormalFormIsClean(u, w, n);
    if Legacy(u, n) {
      MigratedIsNotLegacy(u, n, m);
      NormalFormIsClean(u, n, m);
      CleanStays(u, m, o);
    } else {
      CleanStays(u, n, m);
      CleanStays(u, m, o);
    }
  }

  /** An app id with a stray mark: its first normal form is not final. */
  lemma OnceCanFallShort(u: Unicode, w: Window, n: Window, m: Window)
    requires Sane(u) && LowersAscii(u) && !u.isLetter('!') && !u.isDigit('!')
    requires w.appID == "docker_ps!" && w.title == "Docker"
    requires NormalizesTo(u, w, n) && NormalizesTo(u, n, m)
    ensures n.appID == LEGACY_APP && m.appID == "containers" && m != n
  {
    StrayMark(u);
    OnceIsFixedExactlyWhen(u, w, n, m);
    LegacyResult(u, w, n);
    MigratedIsNotLegacy(u, n, m);
  }

  lemma StrayMark(u: Unicode)
    requires Sane(u) && !u.isLetter('!') && !u.isDigit('!')
    ensures Token(u, "docker_ps!", 128) == LEGACY_APP && !LegacyNamed(u, "docker_ps!", "Docker")
  {
    TrimSpaceTrims("docker_ps!");
    TrimSpaceTrims("Docker");
    StrayMarkGoes(u);
    ShortFits(LEGACY_APP, 128);
    CutFits(LEGACY_APP, 128);
  }

  lemma StrayMarkGoes(u: Unicode)
    requires Sane(u) && !u.isLetter('!') && !u.isDigit('!')
    ensures TokenRunes(u, "docker_ps!") == LEGACY_APP
  {
    TokenRunesSplit(u, LEGACY_APP, "!");
    TokenRunesOnly(u, LEGACY_APP);
    assert "docker_ps!" == LEGACY_APP + "!";
    assert "!"[1..] == "";
  }

  // ---------------------------------------------------------------- z-order

  /** The active window: the first of the topmost among those not minimized. */
  predicate IsActive(ws: seq<Window>, i: int) {
    && 0 <= i < |ws| && !ws[i].minimized
    && forall j :: 0 <= j < |ws| && !ws[j].minimized ==> ws[j].z < ws[i].z || (ws[j].z == ws[i].z && i <= j)
  }

  lemma ActiveIsUnique(ws: seq<Window>, i: int)
    requires IsActive(ws, i)
    ensures forall j :: IsActive(ws, j) ==> j == i
  {
  }

  /** Minimized windows are never active, deeper ones only above all, and of equally deep ones the first. */
  lemma ActiveSays(ws: seq<Window>, i: int, j: int)
    requires IsActive(ws, i) && 0 <= j < |ws| && !ws[j].minimized
    ensures !ws[i].minimized && ws[j].z <= ws[i].z
    ensures ws[j].z == ws[i].z ==> i <= j
  {
  }

  ghost function ActiveId(ws: seq<Window>): (id: string)
    ensures forall i :: IsActive(ws, i) ==> id == ws[i].id
    ensures (forall i :: !IsActive(ws, i)) ==> id == ""
  {
    if exists i :: IsActive(ws, i) then
      var i :| IsActive(ws, i);
      ActiveIsUnique(ws, i);
      ws[i].id
    else ""
  }

  method ActiveWindowID(ws: seq<Window>) returns (id: string)
    ensures id == ActiveId(ws)
    ensures (exists i :: IsActive(ws, i)) <==> exists i :: 0 <= i < |ws| && !ws[i].minimized
  {
    var active, found := 0, false;
    for i := 0 to |ws|
      invariant found ==> active < i && IsActive(ws[..i], active)
      invariant !found ==> forall j :: 0 <= j < i ==> ws[j].minimized
    {
      if ws[i].minimized { continue; }
      if !found || ws[i].z > ws[active].z {
        active, found := i, true;
      }
    }
    assert ws[..|ws|] == ws;
    if !found { return ""; }
    return ws[active].id;
  }

  predicate IsTop(ws: seq<Window>, z: int) {
    && z >= 0 && (forall i :: 0 <= i < |ws| ==> ws[i].z <= z)
    && (z == 0 || exists i :: 0 <= i < |ws| && ws[i].z == z)
  }

  const MAX_INT: int := 0x7FFF_FFFF_FFFF_FFFF
  const MIN_INT: int := -0x8000_0000_0000_0000

  /** One more, as a 64-bit integer. */
  function OneAbove(z: int): int {
    if z == MAX_INT then MIN_INT else z + 1
  }

  /** Every window whose id is the trimmed `id` is put one above all, and nothing else changes. */
  ghost predicate Raised(ws: seq<Window>, id: string, next: seq<Window>) {
    && |next| == |ws|
    && exists top :: IsTop(ws, top) && IsRaisedTo(ws, TrimSpace(id), OneAbove(top), next)
  }

  /** No z-index is the largest integer. */
  predicate BelowMax(ws: seq<Window>) {
    forall i :: 0 <= i < |ws| ==> ws[i].z < MAX_INT
  }

  /** The z-indices are 64-bit integers, none of them the smallest; normalized ones are positive. */
  predicate Ordinary(ws: seq<Window>) {
    forall i :: 0 <= i < |ws| ==> MIN_INT < ws[i].z <= MAX_INT
  }

  predicate IsRaisedTo(ws: seq<Window>, id: string, z: int, next: seq<Window>)
    requires |next| == |ws|
  {
    forall i :: 0 <= i < |ws| ==> next[i] == RaisedTo(ws[i], id, z)
  }

  function RaisedTo(w: Window, id: string, z: int): Window {
    if w.id == id then w.(z := z) else w
  }

  method BringToFront(ws: seq<Window>, id: string) returns (next: seq<Window>)
    ensures Raised(ws, id, next)
  {
    var key := TrimSpace(id);
    var maxZ := 0;
    for i := 0 to |ws|
      invariant IsTop(ws[..i], maxZ)
    {
      assert ws[..i + 1] == ws[..i] + [ws[i]];
      if ws[i].z > maxZ {
        maxZ := ws[i].z;
        assert ws[..i + 1][i].z == maxZ;
      } else if maxZ != 0 {
        var k :| 0 <= k < i && ws[..i][k].z == maxZ;
        assert ws[..i + 1][k].z == maxZ;
      }
    }
    assert ws[..|ws|] == ws;
    next := [];
    for i := 0 to |ws|
      invariant |next| == i
      invariant forall j :: 0 <= j < i ==> next[j] == RaisedTo(ws[j], key, OneAbove(maxZ))
    {
      var window := ws[i];
      if window.id == key { window := window.(z := OneAbove(maxZ)); }
      next := next + [window];
    }
    assert IsRaisedTo(ws, key, OneAbove(maxZ), next);
  }

  predicate Shown(w: Window, id: string) {
    w.id == id && !w.minimized
  }

  /** Some shown window is raised. */
  predicate RaiseShows(ws: seq<Window>, id: string) {
    exists k :: 0 <= k < |ws| && Shown(ws[k], TrimSpace(id))
  }

  /** A shown window that is raised becomes the active one; a raise that shows nothing leaves it as it was. */
  lemma RaisedIsActive(ws: seq<Window>, id: string, next: seq<Window>)
    requires Raised(ws, id, next)
    ensures RaiseShows(ws, id) && BelowMax(ws) ==> ActiveId(next) == TrimSpace(id)
    ensures !RaiseShows(ws, id) ==> ActiveId(next) == ActiveId(ws)
  {
    if k :| 0 <= k < |ws| && Shown(ws[k], TrimSpace(id)) {
      var first := FirstShown(ws, TrimSpace(id), k);
      if BelowMax(ws) { assert IsActive(next, first); }
    } else if i :| IsActive(ws, i) {
      assert IsActive(next, i);
    } else if i :| IsActive(next, i) {
      HiddenLower(ws, id, next, i);
      assert false;
    }
  }

  /** No window with another id is shown. */
  predicate Alone(ws: seq<Window>, id: string) {
    forall i :: 0 <= i < |ws| && !ws[i].minimized ==> ws[i].id == id
  }

  lemma {:induction false} SomeWindowIsActive(ws: seq<Window>, i: nat)
    requires i < |ws| && !ws[i].minimized
    ensures exists k :: IsActive(ws, k)
  {
    var k := TopOf(ws, |ws|, i);
    assert IsActive(ws, k);
  }

  /** The first topmost shown window among the first `n`. */
  lemma {:induction false} TopOf(ws: seq<Window>, n: nat, i: nat) returns (k: nat)
    requires i < n <= |ws| && !ws[i].minimized
    ensures k < n && IsActive(ws[..n], k)
    decreases n
  {
    k := i;
    if j :| 0 <= j < n - 1 && !ws[j].minimized {
      k := TopOf(ws, n - 1, j);
      if !ws[n - 1].minimized && ws[n - 1].z > ws[k].z { k := n - 1; }
    }
  }

  /**
   On machine integers, a raise of a shown window makes it active exactly unless some z-index is
   the largest integer, so that the raised one wraps around, and another window is shown.
   */
  lemma RaisedIsActiveExactlyWhen(ws: seq<Window>, id: string, next: seq<Window>)
    requires Raised(ws, id, next) && RaiseShows(ws, id) && Ordinary(ws)
    ensures ActiveId(next) == TrimSpace(id) <==> BelowMax(ws) || Alone(ws, TrimSpace(id))
  {
    var k :| 0 <= k < |ws| && Shown(ws[k], TrimSpace(id));
    SomeWindowIsActive(next, k);
    var a :| IsActive(next, a);
    if BelowMax(ws) {
      RaisedIsActive(ws, id, next);
    } else if Alone(ws, TrimSpace(id)) {
      assert !ws[a].minimized && next[a].id == ws[a].id;
    }
  }

  lemma {:induction false} FirstShown(ws: seq<Window>, id: string, k: nat) returns (first: nat)
    requires k < |ws| && Shown(ws[k], id)
    ensures first <= k && Shown(ws[first], id) && forall j :: 0 <= j < first ==> !Shown(ws[j], id)
  {
    first := k;
    if j :| 0 <= j < k && Shown(ws[j], id) { first := FirstShown(ws, id, j); }
  }

  lemma HiddenLower(ws: seq<Window>, id: string, next: seq<Window>, i: int)
    requires Raised(ws, id, next) && IsActive(next, i)
    requires forall k :: 0 <= k < |ws| ==> !Shown(ws[k], TrimSpace(id))
    ensures IsActive(ws, i)
  {
    assert !Shown(ws[i], TrimSpace(id));
    forall j | 0 <= j < |ws| && !ws[j].minimized
      ensures ws[j].z < ws[i].z || (ws[j].z == ws[i].z && i <= j)
    {
      assert !Shown(ws[j], TrimSpace(id));
    }
  }

  // ---------------------------------------------------------------- many raises

  /** A run of raises, the last one outermost. */
  datatype Raises = Start(windows: seq<Window>) | Then(before: Raises, id: string, windows: seq<Window>)

  ghost predicate IsRun(r: Raises) {
    r.Then? ==> IsRun(r.before) && Raised(r.before.windows, r.id, r.windows)
  }

  function First(r: Raises): seq<Window> {
    if r.Start? then r.windows else First(r.before)
  }

  predicate RaisedIn(r: Raises, id: string) {
    r.Then? && (TrimSpace(r.id) == id || RaisedIn(r.before, id))
  }

  /** `a` was last raised after `b` was, if `b` was raised at all. */
  predicate LaterIn(r: Raises, a: string, b: string) {
    r.Then? && (if TrimSpace(r.id) == a then a != b else TrimSpace(r.id) != b && LaterIn(r.before, a, b))
  }

  lemma {:induction false} RunKeepsIds(r: Raises)
    requires IsRun(r)
    ensures |r.windows| == |First(r)|
    ensures forall i :: 0 <= i < |First(r)| ==>
              r.windows[i] == First(r)[i].(z := r.windows[i].z)
              && (!RaisedIn(r, First(r)[i].id) ==> r.windows[i] == First(r)[i])
    decreases r
  {
    if r.Then? { RunKeepsIds(r.before); }
  }

  function Length(r: Raises): nat {
    if r.Start? then 0 else 1 + Length(r.before)
  }

  /** `n` more raises do not reach the largest integer. */
  predicate RoomFor(ws: seq<Window>, n: nat) {
    n <= MAX_INT && forall i :: 0 <= i < |ws| ==> ws[i].z + n <= MAX_INT
  }

  lemma {:induction false} RaisesTakeRoom(r: Raises, n: nat)
    requires IsRun(r) && RoomFor(First(r), Length(r) + n)
    ensures RoomFor(r.windows, n)
    decreases r
  {
    if r.Then? {
      RaisesTakeRoom(r.before, n + 1);
    }
  }

  /** With room to raise, the z-order is the order of last raises; windows never raised keep theirs, below. */
  lemma {:induction false} LastRaisedIsOnTop(r: Raises, i: nat, j: nat)
    requires IsRun(r) && RoomFor(First(r), Length(r)) && i < |First(r)| && j < |First(r)|
    ensures |r.windows| == |First(r)|
    ensures LaterIn(r, First(r)[i].id, First(r)[j].id) ==> r.windows[i].z > r.windows[j].z
    decreases r
  {
    RunKeepsIds(r);
    if r.Then? {
      RunKeepsIds(r.before);
      RaisesTakeRoom(r.before, 1);
      LastRaisedIsOnTop(r.before, i, j);
    }
  }
}
