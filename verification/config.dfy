/** The configuration loader: the defaults, the data directory, the layout
    the configuration is saved in, and the field-by-field merge of a parsed
    TOML document onto the defaults. The file system is an argument: the
    configuration file is missing, undecodable, or a parsed document, and
    saving is the document returned for writing. */
module Config {
  import opened Models
  import Strings

  const AppName := "Spoverlay"
  const ConfigFileName := "config.toml"
  const DefaultRedirectUri := "http://127.0.0.1:8080/callback"
  const DefaultPollIntervalMs := 1000
  const DefaultHotkey := "F7"

  /** A TOML value below a table. `Float` carries its printed form, its value
      truncated toward zero and whether it is non-zero; `Other` stands for
      arrays, dates and nested tables, with their printed form and whether
      they are non-empty. */
  datatype Leaf =
    | Str(s: string)
    | Int(i: int)
    | Bool(b: bool)
    | Float(printed: string, truncated: int, nonZero: bool)
    | Other(printed: string, truthy: bool)

  /** A top-level TOML value: a table such as `[ui]`, or a plain value. */
  datatype Top = Table(entries: map<string, Leaf>) | Scalar(leaf: Leaf)

  type Document = map<string, Top>

  /** What reading the configuration file gives. */
  datatype ConfigFile = Missing | Undecodable | Parsed(doc: Document)

  // ---------------------------------------------------------------------
  // Python's conversions

  /** `str(v)`: never fails. */
  function ToStr(v: Leaf): string {
    match v
    case Str(s) => s
    case Int(i) => Strings.IntToDecimal(i)
    case Bool(b) => if b then "True" else "False"
    case Float(printed, _, _) => printed
    case Other(printed, _) => printed
  }

  /** `bool(v)`: truthiness. */
  function ToBool(v: Leaf): bool {
    match v
    case Str(s) => s != ""
    case Int(i) => i != 0
    case Bool(b) => b
    case Float(_, _, nonZero) => nonZero
    case Other(_, truthy) => truthy
  }

  /** `int(v)`: `None` stands for the ValueError or TypeError it raises. */
  function ToInt(v: Leaf): (r: Option<int>)
    ensures v.Int? ==> r == Some(v.i)
    ensures v.Bool? ==> r == Some(if v.b then 1 else 0)
    ensures v.Other? ==> r == None
  {
    match v
    case Str(s) => ParseInt(s)
    case Int(i) => Some(i)
    case Bool(b) => Some(if b then 1 else 0)
    case Float(_, truncated, _) => Some(truncated)
    case Other(_, _) => None
  }

  predicate IsDigit(c: char) {
    '0' <= c <= '9'
  }

  /** The digits of a base-10 literal as `int()` accepts them: at least one
      digit, first and last characters digits, and every underscore followed
      by a digit. */
  predicate WellFormedDigits(r: string) {
    |r| >= 1 && IsDigit(r[0]) && IsDigit(r[|r| - 1])
    && (forall i :: 0 <= i < |r| ==> IsDigit(r[i]) || r[i] == '_')
    && (forall i :: 0 <= i < |r| - 1 && r[i] == '_' ==> IsDigit(r[i + 1]))
  }

  /** The value of a run of digits, underscores skipped. */
  function DigitsValue(r: string): nat
    requires forall i :: 0 <= i < |r| ==> IsDigit(r[i]) || r[i] == '_'
    decreases |r|
  {
    if r == [] then 0
    else if r[|r| - 1] == '_' then DigitsValue(r[..|r| - 1])
    else
      assert IsDigit(r[|r| - 1]);
      10 * DigitsValue(r[..|r| - 1]) + (r[|r| - 1] as int - '0' as int)
  }

  /** `int(s)` for a text: surrounding whitespace is ignored. */
  function ParseInt(s: string): (r: Option<int>)
    ensures Strings.Strip(s) == [] ==> r.None?
  {
    ParseLiteral(Strings.Strip(s))
  }

  /** A text `int()` reads once stripped: well-formed digits, or a sign
      followed by well-formed digits. */
  predicate IntLiteral(t: string) {
    WellFormedDigits(t) || (|t| >= 1 && (t[0] == '+' || t[0] == '-') && WellFormedDigits(t[1..]))
  }

  /** An optional sign, then well-formed digits: exactly those texts are
      accepted, a negative value comes only from a leading "-", and the
      empty text is rejected. */
  function ParseLiteral(t: string): (r: Option<int>)
    ensures r.Some? <==> IntLiteral(t)
    ensures t == [] ==> r.None?
    ensures r.Some? && r.value < 0 ==> t[0] == '-'
  {
    if |t| >= 1 && (t[0] == '+' || t[0] == '-') then
      var body := t[1..];
      if WellFormedDigits(body) then
        Some(if t[0] == '-' then -(DigitsValue(body) as int) else DigitsValue(body) as int)
      else None
    else if WellFormedDigits(t) then
      Some(DigitsValue(t))
    else None
  }

  /** Whitespace around the literal is ignored: `int()` of the padded text
      is the literal's value, or a failure exactly when the literal fails. */
  lemma ParseIntStrips(w1: string, t: string, w2: string)
    requires Strings.AllSpace(w1) && Strings.AllSpace(w2)
    requires t == [] || (!Strings.IsSpace(t[0]) && !Strings.IsSpace(t[|t| - 1]))
    ensures ParseInt(w1 + t + w2) == ParseLiteral(t)
  {
    Strings.StripSurrounding(w1, t, w2);
  }

  /** Stripping leaves a text that neither starts nor ends in whitespace. */
  lemma StripNoSpaceEnds(s: string)
    requires |s| >= 1 && !Strings.IsSpace(s[0]) && !Strings.IsSpace(s[|s| - 1])
    ensures Strings.Strip(s) == s
  {
    assert Strings.RStrip(s) == s;
  }

  lemma {:induction false} DigitsValueDecimal(n: nat)
    ensures var r := Strings.NatToDecimal(n);
      (forall i :: 0 <= i < |r| ==> IsDigit(r[i]) || r[i] == '_') && DigitsValue(r) == n
  {
    var r := Strings.NatToDecimal(n);
    if n >= 10 {
      DigitsValueDecimal(n / 10);
      assert r[..|r| - 1] == Strings.NatToDecimal(n / 10);
    }
  }

  /** `str(n)` is a well-formed run of digits worth `n`, with no sign and
      no surrounding whitespace. */
  lemma DecimalLiteral(n: nat)
    ensures var d := Strings.NatToDecimal(n);
      WellFormedDigits(d) && DigitsValue(d) == n
      && '0' <= d[0] <= '9' && '0' <= d[|d| - 1] <= '9'
      && !Strings.IsSpace(d[0]) && !Strings.IsSpace(d[|d| - 1])
  {
    DigitsValueDecimal(n);
  }

  /** A number printed by `str` is read back by `int`: `int(str(i)) == i`. */
  lemma ParseIntDecimal(i: int)
    ensures ToInt(Str(ToStr(Int(i)))) == Some(i)
  {
    var s := Strings.IntToDecimal(i);
    ParseLiteralDecimal(i);
    StripNoSpaceEnds(s);
    assert ParseInt(s) == Some(i);
  }

  /** The sign and digits `str` prints parse back to the number, and they
      neither start nor end in whitespace. */
  lemma ParseLiteralDecimal(i: int)
    ensures var s := Strings.IntToDecimal(i);
      ParseLiteral(s) == Some(i) && |s| >= 1
      && !Strings.IsSpace(s[0]) && !Strings.IsSpace(s[|s| - 1])
  {
    var n: nat := if i < 0 then -i else i;
    var d := Strings.NatToDecimal(n);
    DecimalLiteral(n);
    if i < 0 {
      var s := "-" + d;
      assert s[1..] == d;
      NegativeLiteral(s);
    } else {
      UnsignedLiteral(d);
    }
  }

  /** Digits without a sign are read as they are. */
  lemma UnsignedLiteral(t: string)
    requires WellFormedDigits(t)
    ensures ParseLiteral(t) == Some(DigitsValue(t))
  {
  }

  /** A leading "+" keeps the digits after it as they are. */
  lemma PositiveLiteral(t: string)
    requires |t| >= 1 && t[0] == '+' && WellFormedDigits(t[1..])
    ensures ParseLiteral(t) == Some(DigitsValue(t[1..]))
  {
  }

  /** A leading "-" negates the digits after it. */
  lemma NegativeLiteral(t: string)
    requires |t| >= 1 && t[0] == '-' && WellFormedDigits(t[1..])
    ensures ParseLiteral(t) == Some(-(DigitsValue(t[1..]) as int))
  {
  }

  /** `int()` accepts a plus sign and single underscores between digits. */
  lemma ParseIntUnderscores()
    ensures ParseInt("+1_000") == Some(1000)
  {
    var t := "+1_000";
    StripNoSpaceEnds(t);
    var body := t[1..];
    assert body == "1_000";
    assert body[..4] == "1_00" && body[..4][..3] == "1_0" && body[..4][..3][..2] == "1_" && body[..4][..3][..2][..1] == "1";
    assert DigitsValue("1_") == 1;
    assert DigitsValue("1_0") == 10;
    assert DigitsValue("1_00") == 100;
  }

  /** `int()` rejects a doubled or a trailing underscore and an empty text. */
  lemma ParseIntRejects()
    ensures ParseInt("1__0") == None
    ensures ParseInt("10_") == None
    ensures ParseInt("") == None
  {
    StripNoSpaceEnds("1__0");
    assert !WellFormedDigits("1__0") by { assert "1__0"[1] == '_' && "1__0"[2] == '_'; }
    StripNoSpaceEnds("10_");
  }

  // ---------------------------------------------------------------------
  // Directories and defaults

  /** `sys.platform.startswith("win")` */
  predicate IsWindows(platform: string) {
    |platform| >= 3 && platform[..3] == "win"
  }

  /** `os.path.join(a, b)` for a relative `b`: the platform's separator is
      put between the parts unless `a` is empty or already ends in a
      separator (on Windows both "\" and "/" count). */
  function PathJoin(a: string, b: string, windows: bool): (r: string)
    ensures |a| + |b| <= |r| <= |a| + |b| + 1
    ensures r[..|a|] == a && r[|r| - |b|..] == b
    ensures a == [] ==> r == b
    ensures |r| == |a| + |b| || (|r| == |a| + |b| + 1 && r[|a|] == (if windows then '\\' else '/'))
  {
    if a == [] || a[|a| - 1] == '/' || (windows && a[|a| - 1] == '\\') then a + b
    else a + [if windows then '\\' else '/'] + b
  }

  /** `user_data_dir`: the application's folder inside APPDATA on Windows
      (by default `~/AppData/Roaming`) and inside XDG_CONFIG_HOME elsewhere
      (by default `~/.config`). A variable that is set is used even when
      empty. */
  function UserDataDir(platform: string, env: map<string, string>, home: string): (dir: string)
    ensures |dir| >= |AppName| && dir[|dir| - |AppName|..] == AppName
  {
    var windows := IsWindows(platform);
    var base :=
      if windows then
        (if "APPDATA" in env then env["APPDATA"] else PathJoin(PathJoin(home, "AppData", true), "Roaming", true))
      else
        (if "XDG_CONFIG_HOME" in env then env["XDG_CONFIG_HOME"] else PathJoin(home, ".config", false));
    PathJoin(base, AppName, windows)
  }

  /** On Windows with APPDATA set, the folder is "Spoverlay" inside it: a
      "\" goes between them unless APPDATA is empty or already ends in a
      separator. The home directory plays no part. */
  lemma DataDirFromAppData(platform: string, env: map<string, string>, home: string)
    requires IsWindows(platform) && "APPDATA" in env
    ensures var base := env["APPDATA"];
      UserDataDir(platform, env, home) ==
        if base == [] || base[|base| - 1] == '\\' || base[|base| - 1] == '/' then base + "Spoverlay"
        else base + "\\Spoverlay"
  {
  }

  /** On Windows without APPDATA, the folder is `AppData\Roaming\Spoverlay`
      under the home directory, for every home directory. */
  lemma DataDirWindowsFallback(platform: string, env: map<string, string>, home: string)
    requires IsWindows(platform) && "APPDATA" !in env
    ensures UserDataDir(platform, env, home) == Under(home, "AppData\\Roaming\\Spoverlay", true)
  {
    assert UserDataDir(platform, env, home) ==
      PathJoin(PathJoin(PathJoin(home, "AppData", true), "Roaming", true), AppName, true);
    RoamingUnder(home);
  }

  /** The three joins of the Windows fallback put `AppData\\Roaming\\Spoverlay`
      under the home directory. */
  lemma RoamingUnder(home: string)
    ensures PathJoin(PathJoin(PathJoin(home, "AppData", true), "Roaming", true), AppName, true) ==
      Under(home, "AppData\\Roaming\\Spoverlay", true)
  {
    JoinFirst(home, "AppData", true);
    JoinWords(home, "AppData", "Roaming", true);
    RoamingLiterals();
    JoinWords(home, "AppData\\Roaming", AppName, true);
  }

  lemma RoamingLiterals()
    ensures "AppData" + ['\\'] + "Roaming" == "AppData\\Roaming"
    ensures "AppData\\Roaming" + ['\\'] + AppName == "AppData\\Roaming\\Spoverlay"
  {
  }

  /** Elsewhere without XDG_CONFIG_HOME, the folder is `.config/Spoverlay`
      under the home directory, for every home directory. */
  lemma DataDirXdgFallback(platform: string, env: map<string, string>, home: string)
    requires !IsWindows(platform) && "XDG_CONFIG_HOME" !in env
    ensures UserDataDir(platform, env, home) == Under(home, ".config/Spoverlay", false)
  {
    assert UserDataDir(platform, env, home) == PathJoin(PathJoin(home, ".config", false), AppName, false);
    ConfigUnder(home);
  }

  /** The two joins of the XDG fallback put `.config/Spoverlay` under the
      home directory. */
  lemma ConfigUnder(home: string)
    ensures PathJoin(PathJoin(home, ".config", false), AppName, false) == Under(home, ".config/Spoverlay", false)
  {
    JoinFirst(home, ".config", false);
    JoinWords(home, ".config", AppName, false);
    assert ".config" + ['/'] + AppName == ".config/Spoverlay";
  }

  /** A separator of the platform. */
  predicate IsSeparator(c: char, windows: bool) {
    c == '/' || (windows && c == '\\')
  }

  /** `rest` placed under `dir`, with one separator between them unless
      `dir` is empty or already ends in one. */
  function Under(dir: string, rest: string, windows: bool): string {
    if dir == [] then rest
    else if IsSeparator(dir[|dir| - 1], windows) then dir + rest
    else dir + ([if windows then '\\' else '/'] + rest)
  }

  lemma JoinFirst(dir: string, rest: string, windows: bool)
    ensures PathJoin(dir, rest, windows) == Under(dir, rest, windows)
  {
  }

  /** Joining onto a path that ends in a word puts exactly one separator
      between the two. */
  lemma JoinWords(dir: string, word: string, next: string, windows: bool)
    requires word != [] && !IsSeparator(word[|word| - 1], true)
    ensures PathJoin(Under(dir, word, windows), next, windows) ==
      Under(dir, word + [if windows then '\\' else '/'] + next, windows)
  {
    JoinFirst(Under(dir, word, windows), next, windows);
    UnderWords(dir, word, next, windows);
  }

  lemma UnderWords(dir: string, word: string, next: string, windows: bool)
    requires word != [] && !IsSeparator(word[|word| - 1], true)
    ensures Under(Under(dir, word, windows), next, windows) ==
      Under(dir, word + [if windows then '\\' else '/'] + next, windows)
  {
    var sep := if windows then '\\' else '/';
    var tail := word + [sep] + next;
    var w := Under(dir, word, windows);
    if dir == [] {
      assert w == word;
    } else if IsSeparator(dir[|dir| - 1], windows) {
      assert w == dir + word;
      assert w[|w| - 1] == word[|word| - 1];
      assert dir + word + ([sep] + next) == dir + tail;
    } else {
      assert w == dir + ([sep] + word);
      assert w[|w| - 1] == word[|word| - 1];
      assert dir + ([sep] + word) + ([sep] + next) == dir + ([sep] + tail);
    }
  }

  /** Elsewhere, XDG_CONFIG_HOME is used as it is, even when empty: a "/"
      goes before "Spoverlay" unless the value is empty or already ends in
      "/", and a "\" is an ordinary character there. */
  lemma DataDirFromXdg(platform: string, env: map<string, string>, home: string)
    requires !IsWindows(platform) && "XDG_CONFIG_HOME" in env
    ensures var base := env["XDG_CONFIG_HOME"];
      UserDataDir(platform, env, home) ==
        if base == [] || base[|base| - 1] == '/' then base + "Spoverlay" else base + "/Spoverlay"
  {
  }

  /** `get_default_config`, with the application directory and the data
      directory as arguments. */
  function DefaultConfig(appDirectory: string, dataDirectory: string, windows: bool): (c: AppConfig)
    ensures c.client == ClientConfig("", DefaultRedirectUri, DefaultPollIntervalMs)
    ensures c.ui == UiConfig("top-right", 24, true, 64, DefaultHotkey)
    ensures c.appDirectory == appDirectory && c.dataDirectory == dataDirectory
    ensures |c.configPath| >= |dataDirectory| + |ConfigFileName|
    ensures c.configPath[..|dataDirectory|] == dataDirectory
    ensures c.configPath[|c.configPath| - |ConfigFileName|..] == ConfigFileName
  {
    AppConfig(
      client := ClientConfig(clientId := "", redirectUri := DefaultRedirectUri, pollIntervalMs := DefaultPollIntervalMs),
      ui := UiConfig(position := "top-right", margin := 24, clickThrough := true, artSize := 64, hotkey := DefaultHotkey),
      appDirectory := appDirectory,
      dataDirectory := dataDirectory,
      configPath := PathJoin(dataDirectory, ConfigFileName, windows))
  }

  /** The defaults of a session: `get_default_config` on this machine. */
  function Defaults(platform: string, env: map<string, string>, home: string, appDirectory: string): AppConfig {
    DefaultConfig(appDirectory, UserDataDir(platform, env, home), IsWindows(platform))
  }

  /** The document `save_config` writes: a `client` table and a `ui` table. */
  function SaveLayout(c: AppConfig): (doc: Document)
    ensures doc.Keys == {"client", "ui"}
    ensures doc["client"].Table? && doc["client"].entries.Keys == {"client_id", "redirect_uri", "poll_interval_ms"}
    ensures doc["ui"].Table? && doc["ui"].entries.Keys == {"position", "margin", "click_through", "art_size", "hotkey"}
    ensures doc["client"].entries["poll_interval_ms"] == Int(c.client.pollIntervalMs)
  {
    map[
      "client" := Table(map[
        "client_id" := Str(c.client.clientId),
        "redirect_uri" := Str(c.client.redirectUri),
        "poll_interval_ms" := Int(c.client.pollIntervalMs)]),
      "ui" := Table(map[
        "position" := Str(c.ui.position),
        "margin" := Int(c.ui.margin),
        "click_through" := Bool(c.ui.clickThrough),
        "art_size" := Int(c.ui.artSize),
        "hotkey" := Str(c.ui.hotkey)])
    ]
  }

  // ---------------------------------------------------------------------
  // The merge, as a reference definition

  /** `doc.get(name, {})` when it is a table; `None` when it is something
      else, and the section is skipped. */
  function SectionOf(doc: Document, name: string): Option<map<string, Leaf>> {
    if name !in doc then Some(map[])
    else if doc[name].Table? then Some(doc[name].entries)
    else None
  }

  function StrField(s: map<string, Leaf>, key: string, default: string): string {
    if key in s then ToStr(s[key]) else default
  }

  function BoolField(s: map<string, Leaf>, key: string, default: bool): bool {
    if key in s then ToBool(s[key]) else default
  }

  function IntField(s: map<string, Leaf>, key: string, default: int): Option<int> {
    if key in s then ToInt(s[key]) else Some(default)
  }

  /** `int(doc.get(key, default))` on the top level of the document. */
  function TopIntField(doc: Document, key: string, default: int): Option<int> {
    if key !in doc then Some(default)
    else if doc[key].Table? then None
    else ToInt(doc[key].leaf)
  }

  /** How many keys of the `ui` section, in the order position, margin,
      art_size, click_through, hotkey, are taken: all of them, or those
      before the first one whose conversion fails. Only the integer keys can
      fail. */
  function UiTaken(s: map<string, Leaf>): (n: nat)
    ensures n in {1, 2, 5}
  {
    if IntField(s, "margin", 0).None? then 1
    else if IntField(s, "art_size", 0).None? then 2
    else 5
  }

  /** The `ui` record a document yields: a key among the taken ones gets
      the user's converted value when present, every other field keeps its
      default. */
  function MergedUi(defaults: UiConfig, doc: Document): UiConfig {
    match SectionOf(doc, "ui")
    case None => defaults
    case Some(s) =>
      var n := UiTaken(s);
      UiConfig(
        position := StrField(s, "position", defaults.position),
        margin := if n > 1 then IntField(s, "margin", defaults.margin).value else defaults.margin,
        clickThrough := if n > 3 then BoolField(s, "click_through", defaults.clickThrough) else defaults.clickThrough,
        artSize := if n > 2 then IntField(s, "art_size", defaults.artSize).value else defaults.artSize,
        hotkey := if n > 4 then StrField(s, "hotkey", defaults.hotkey) else defaults.hotkey)
  }

  /** The `client` record a document yields: the id and redirect come from
      the `client` table, the poll interval from the top level of the
      document, and only the poll interval can fail. */
  function MergedClient(defaults: ClientConfig, doc: Document): ClientConfig {
    match SectionOf(doc, "client")
    case None => defaults
    case Some(s) =>
      var poll := TopIntField(doc, "poll_interval_ms", defaults.pollIntervalMs);
      ClientConfig(
        clientId := StrField(s, "client_id", defaults.clientId),
        redirectUri := StrField(s, "redirect_uri", defaults.redirectUri),
        pollIntervalMs := if poll.Some? then poll.value else defaults.pollIntervalMs)
  }

  /** What `load_config` returns for a file. */
  function Loaded(defaults: AppConfig, file: ConfigFile): AppConfig {
    match file
    case Parsed(doc) => defaults.(ui := MergedUi(defaults.ui, doc), client := MergedClient(defaults.client, doc))
    case _ => defaults
  }

  // ---------------------------------------------------------------------
  // The loader

  /** `load_config`: starts from the defaults; a missing file is created
      from them; an undecodable one leaves them; otherwise each section is
      overlaid key by key in the source's order, and a failed conversion
      abandons the rest of its section only. */
  method LoadConfig(file: ConfigFile, platform: string, env: map<string, string>, home: string, appDirectory: string)
    returns (config: AppConfig, written: Option<Document>)
    ensures config == Loaded(Defaults(platform, env, home, appDirectory), file)
    ensures written == (if file.Missing? then Some(SaveLayout(config)) else None)
  {
    config := Defaults(platform, env, home, appDirectory);
    written := None;
    if file.Missing? {
      written := Some(SaveLayout(config));
      return;
    }
    if file.Undecodable? {
      return;
    }
    var doc := file.doc;
    var ui := LoadUiSection(config.ui, doc);
    var client := LoadClientSection(config.client, doc);
    config := config.(ui := ui, client := client);
  }

  /** The `ui` part of `load_config`: keys are read in the source's order
      and a failed conversion keeps the remaining keys at their defaults. */
  method LoadUiSection(defaults: UiConfig, doc: Document) returns (ui: UiConfig)
    ensures ui == MergedUi(defaults, doc)
  {
    ui := defaults;
    var uiSection := SectionOf(doc, "ui");
    if uiSection.Some? {
      var s := uiSection.value;
      ui := ui.(position := StrField(s, "position", ui.position));
      var margin := IntField(s, "margin", ui.margin);
      if margin.Some? {
        ui := ui.(margin := margin.value);
        var artSize := IntField(s, "art_size", ui.artSize);
        if artSize.Some? {
          ui := ui.(artSize := artSize.value);
          ui := ui.(clickThrough := BoolField(s, "click_through", ui.clickThrough));
          ui := ui.(hotkey := StrField(s, "hotkey", ui.hotkey));
        }
      }
    }
  }

  /** The `client` part of `load_config`: the id and redirect come from the
      `client` table and the poll interval from the top level. */
  method LoadClientSection(defaults: ClientConfig, doc: Document) returns (client: ClientConfig)
    ensures client == MergedClient(defaults, doc)
  {
    client := defaults;
    var clientSection := SectionOf(doc, "client");
    if clientSection.Some? {
      var s := clientSection.value;
      client := client.(clientId := StrField(s, "client_id", client.clientId));
      client := client.(redirectUri := StrField(s, "redirect_uri", client.redirectUri));
      var poll := TopIntField(doc, "poll_interval_ms", client.pollIntervalMs);
      if poll.Some? {
        client := client.(pollIntervalMs := poll.value);
      }
    }
  }

  // ---------------------------------------------------------------------
  // Properties of the merge

  /** A missing or undecodable file, and an empty document, give exactly
      the defaults; the directories always come from the defaults. */
  lemma DefaultsWhenNothingUsable(defaults: AppConfig, file: ConfigFile)
    ensures !file.Parsed? ==> Loaded(defaults, file) == defaults
    ensures Loaded(defaults, Parsed(map[])) == defaults
    ensures Loaded(defaults, file).appDirectory == defaults.appDirectory
    ensures Loaded(defaults, file).dataDirectory == defaults.dataDirectory
    ensures Loaded(defaults, file).configPath == defaults.configPath
  {
    assert UiTaken(map[]) == 5;
  }

  /** A `ui` or `client` entry that is not a table is skipped as a whole. */
  lemma NonTableSectionSkipped(defaults: AppConfig, doc: Document)
    ensures "ui" in doc && doc["ui"].Scalar? ==> Loaded(defaults, Parsed(doc)).ui == defaults.ui
    ensures "client" in doc && doc["client"].Scalar? ==> Loaded(defaults, Parsed(doc)).client == defaults.client
  {
  }

  /** When every integer in the `ui` table converts, each present key
      replaces its default and each absent key keeps it. */
  lemma UiKeysOverlay(defaults: AppConfig, doc: Document, s: map<string, Leaf>)
    requires "ui" in doc && doc["ui"] == Table(s)
    requires "margin" in s ==> ToInt(s["margin"]).Some?
    requires "art_size" in s ==> ToInt(s["art_size"]).Some?
    ensures var ui := Loaded(defaults, Parsed(doc)).ui;
      ui.position == (if "position" in s then ToStr(s["position"]) else defaults.ui.position)
      && ui.margin == (if "margin" in s then ToInt(s["margin"]).value else defaults.ui.margin)
      && ui.artSize == (if "art_size" in s then ToInt(s["art_size"]).value else defaults.ui.artSize)
      && ui.clickThrough == (if "click_through" in s then ToBool(s["click_through"]) else defaults.ui.clickThrough)
      && ui.hotkey == (if "hotkey" in s then ToStr(s["hotkey"]) else defaults.ui.hotkey)
  {
    assert UiTaken(s) == 5;
  }

  /** A margin `int()` rejects keeps the position already read, defaults
      the margin and every later `ui` key, and does not stop the `client`
      section. */
  lemma MarginFailureStopsUiOnly(defaults: AppConfig, doc: Document, s: map<string, Leaf>)
    requires "ui" in doc && doc["ui"] == Table(s)
    requires "margin" in s && ToInt(s["margin"]).None?
    ensures var c := Loaded(defaults, Parsed(doc));
      c.ui == defaults.ui.(position := StrField(s, "position", defaults.ui.position))
      && c.client == MergedClient(defaults.client, doc)
  {
    assert UiTaken(s) == 1;
  }

  /** An art size `int()` rejects keeps the position and the margin, and
      defaults the art size, click-through and hotkey, even when those are
      present and valid. */
  lemma ArtSizeFailureStopsLaterKeys(defaults: AppConfig, doc: Document, s: map<string, Leaf>)
    requires "ui" in doc && doc["ui"] == Table(s)
    requires "margin" in s && ToInt(s["margin"]).Some?
    requires "art_size" in s && ToInt(s["art_size"]).None?
    ensures var ui := Loaded(defaults, Parsed(doc)).ui;
      ui.position == StrField(s, "position", defaults.ui.position)
      && ui.margin == ToInt(s["margin"]).value
      && ui.artSize == defaults.ui.artSize
      && ui.clickThrough == defaults.ui.clickThrough
      && ui.hotkey == defaults.ui.hotkey
  {
    assert UiTaken(s) == 2;
  }

  /** A failed poll interval keeps the client id and redirect just read. */
  lemma PollFailureKeepsEarlierClientKeys(defaults: AppConfig, doc: Document, s: map<string, Leaf>)
    requires "client" in doc && doc["client"] == Table(s)
    requires TopIntField(doc, "poll_interval_ms", defaults.client.pollIntervalMs).None?
    ensures var client := Loaded(defaults, Parsed(doc)).client;
      client.clientId == StrField(s, "client_id", defaults.client.clientId)
      && client.redirectUri == StrField(s, "redirect_uri", defaults.client.redirectUri)
      && client.pollIntervalMs == defaults.client.pollIntervalMs
  {
  }

  /** The poll interval is read from the top level of the document: a
      top-level integer is taken, and one inside the `client` table is
      ignored. */
  lemma PollIntervalFromTopLevel(defaults: AppConfig, doc: Document, p: int)
    requires SectionOf(doc, "client").Some?
    ensures "poll_interval_ms" in doc && doc["poll_interval_ms"] == Scalar(Int(p)) ==>
      Loaded(defaults, Parsed(doc)).client.pollIntervalMs == p
    ensures "poll_interval_ms" !in doc ==>
      Loaded(defaults, Parsed(doc)).client.pollIntervalMs == defaults.client.pollIntervalMs
  {
  }

  /** Saving and loading again restores every saved field except the poll
      interval, which save writes into the `client` table and load reads from
      the top level, so it reverts to the default. */
  lemma SaveLoadRoundTrip(defaults: AppConfig, c: AppConfig)
    ensures Loaded(defaults, Parsed(SaveLayout(c)))
      == defaults.(ui := c.ui, client := c.client.(pollIntervalMs := defaults.client.pollIntervalMs))
  {
    var doc := SaveLayout(c);
    assert SectionOf(doc, "ui") == Some(doc["ui"].entries);
    assert UiTaken(doc["ui"].entries) == 5;
    assert "poll_interval_ms" !in doc;
  }

  /** `bool()` is truthiness: a text is true exactly when it is non-empty
      (so "false" counts as true), a number exactly when it is non-zero, and
      an absent key keeps the default. */
  lemma ClickThroughTruthiness(s: map<string, Leaf>, text: string, n: int, default: bool)
    ensures BoolField(s["click_through" := Str(text)], "click_through", default) <==> text != ""
    ensures BoolField(s["click_through" := Int(n)], "click_through", default) <==> n != 0
    ensures BoolField(s["click_through" := Str("false")], "click_through", false)
    ensures "click_through" !in s ==> BoolField(s, "click_through", default) == default
  {
  }
}
