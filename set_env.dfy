/**
 * The build script scripts/set-env.js: it reads the `.env` file line by
 * line into a key/value table, resolves the three API keys against that
 * table and the process environment, and writes the Angular environment
 * file. The file system and the process environment are inputs here: the
 * `.env` text (absent when the file does not exist) and a map of variables.
 */
module SetEnv {
  import opened JsText

  const GeminiKeyName := "GEMINI_API_KEY"
  const SearchKeyName := "GOOGLE_SEARCH_API_KEY"
  const EngineIdName := "GOOGLE_SEARCH_ENGINE_ID"

  /** The values the generated environment file hands to the application. */
  datatype Environment = Environment(geminiApiKey: string, googleSearchApiKey: string, googleSearchEngineId: string)

  /** `envContent.split('\n')`. */
  function Lines(content: string): seq<string> {
    Split(content, '\n')
  }

  /**
   * `const [key, ...valueParts] = trimmed.split('=')`: the key and the
   * value parts joined back with `=`, each trimmed.
   */
  function KeyValue(trimmed: string): (string, string) {
    var parts := Split(trimmed, '=');
    (Trim(parts[0]), Trim(Join(parts[1..], "=")))
  }

  /**
   * One line of `.env`: nothing for a blank or `#` line, otherwise the text
   * before the first `=` as key and the rest, `=` signs included, as value.
   */
  function ParseLine(line: string): (entry: Option<(string, string)>)
    ensures entry.Some? ==> IsTrimmed(entry.value.0) && IsTrimmed(entry.value.1)
  {
    var trimmed := Trim(line);
    if trimmed != [] && !StartsWith(trimmed, "#") then Some(KeyValue(trimmed)) else None
  }

  /** The key is cut at the first `=` and the value is all the rest; without `=` the whole text is the key. */
  function CutAtFirstEquals(t: string): (string, string) {
    match IndexOf(t, '=')
    case None => (t, "")
    case Some(i) => (Trim(t[..i]), Trim(t[i + 1..]))
  }

  /** Splitting on every `=` and joining the value parts back is the same as cutting at the first `=`. */
  lemma KeyValueAtFirstEquals(t: string)
    requires IsTrimmed(t)
    ensures KeyValue(t) == CutAtFirstEquals(t)
  {
    var parts := Split(t, '=');
    SplitAtFirst(t, '=');
    assert ['='] == "=";
    match IndexOf(t, '=') {
      case None =>
        assert parts[1..] == [];
        TrimTrimmed(t);
      case Some(i) =>
        assert parts[0] == t[..i] && Join(parts[1..], "=") == t[i + 1..];
    }
  }

  /**
   * What a line contributes, stated without split and join: a line that is
   * blank or a comment once trimmed adds nothing; otherwise it is cut at the
   * first `=` (values may hold further `=` signs), and a line without `=`
   * is a key whose value is empty.
   */
  lemma ParseLineShape(line: string)
    ensures var t := Trim(line);
      ParseLine(line) == if t == [] || t[0] == '#' then None else Some(CutAtFirstEquals(t))
  {
    var t := Trim(line);
    StartsWithChar(t, '#');
    if t != [] && t[0] != '#' {
      KeyValueAtFirstEquals(t);
    }
  }

  /** A parsed line: a key and its value, or nothing. */
  type Entry = Option<(string, string)>

  /** The table after assigning `entries` in order: later assignments to a key replace earlier ones. */
  function Assign(entries: seq<Entry>): map<string, string>
    decreases |entries|
  {
    if entries == [] then map[]
    else
      var before := Assign(entries[..|entries| - 1]);
      match entries[|entries| - 1]
      case None => before
      case Some((key, value)) => before[key := value]
  }

  /** The entries of `lines`, one per line. */
  function ParseAll(lines: seq<string>): seq<Entry> {
    seq(|lines|, i requires 0 <= i < |lines| => ParseLine(lines[i]))
  }

  /** The `envVars` table the `forEach` builds from `lines`. */
  function CollectEnvVars(lines: seq<string>): (envVars: map<string, string>)
    ensures forall key :: key in envVars ==> IsTrimmed(key) && IsTrimmed(envVars[key])
  {
    AssignTrimmed(ParseAll(lines));
    Assign(ParseAll(lines))
  }

  /** Entries whose keys and values are trimmed build a table whose keys and values are trimmed. */
  lemma {:induction false} AssignTrimmed(entries: seq<Entry>)
    requires forall i :: 0 <= i < |entries| && entries[i].Some? ==> IsTrimmed(entries[i].value.0) && IsTrimmed(entries[i].value.1)
    ensures forall key :: key in Assign(entries) ==> IsTrimmed(key) && IsTrimmed(Assign(entries)[key])
    decreases |entries|
  {
    if entries != [] {
      AssignTrimmed(entries[..|entries| - 1]);
    }
  }

  /** The `envVars` table: empty when there is no `.env` file. */
  function EnvVarsOf(envFile: Option<string>): (envVars: map<string, string>)
    ensures envFile.None? ==> envVars == map[]
    ensures forall key :: key in envVars ==> IsTrimmed(key) && IsTrimmed(envVars[key])
  {
    match envFile
    case None => map[]
    case Some(content) => CollectEnvVars(Lines(content))
  }

  /** Taking one more line into the table assigns that line's key, if it has one. */
  lemma CollectStep(lines: seq<string>, i: nat)
    requires i < |lines|
    ensures CollectEnvVars(lines[..i + 1]) == match ParseLine(lines[i])
      case None => CollectEnvVars(lines[..i])
      case Some((key, value)) => CollectEnvVars(lines[..i])[key := value]
  {
    assert ParseAll(lines[..i + 1])[..i] == ParseAll(lines[..i]);
  }

  /** The script's `forEach` over the lines of `.env`: each parsed line assigns its key in `envVars`. */
  method AssignLines(lines: seq<string>) returns (envVars: map<string, string>)
    ensures envVars == CollectEnvVars(lines)
  {
    envVars := map[];
    var i := 0;
    while i < |lines|
      invariant 0 <= i <= |lines|
      invariant envVars == CollectEnvVars(lines[..i])
    {
      var entry := ParseLine(lines[i]);
      CollectStep(lines, i);
      if entry.Some? {
        envVars := envVars[entry.value.0 := entry.value.1];
      }
      i := i + 1;
    }
    assert lines[..|lines|] == lines;
  }

  /** Reads `.env`, when the file exists, into `envVars`. */
  method LoadEnvVars(envFile: Option<string>) returns (envVars: map<string, string>)
    ensures envVars == EnvVarsOf(envFile)
  {
    envVars := map[];
    if envFile.Some? {
      envVars := AssignLines(Lines(envFile.value));
    }
  }

  /** The entry assigns `key`. */
  predicate Defines(entry: Entry, key: string) {
    entry.Some? && entry.value.0 == key
  }

  /** A key is in the table exactly when some entry assigns it. */
  lemma {:induction false} AssignKeys(entries: seq<Entry>, key: string)
    ensures key in Assign(entries) <==> exists i :: 0 <= i < |entries| && Defines(entries[i], key)
    decreases |entries|
  {
    if entries != [] {
      var init := entries[..|entries| - 1];
      AssignKeys(init, key);
      if exists i :: 0 <= i < |init| && Defines(init[i], key) {
        var i :| 0 <= i < |init| && Defines(init[i], key);
        assert entries[i] == init[i];
      }
      if exists i :: 0 <= i < |entries| && Defines(entries[i], key) {
        var i :| 0 <= i < |entries| && Defines(entries[i], key);
        if i < |init| {
          assert init[i] == entries[i];
        }
      }
    }
  }

  /** The value kept for a key is the one its last assignment gives. */
  lemma {:induction false} LastAssignmentWins(entries: seq<Entry>, i: nat, key: string, value: string)
    requires i < |entries| && entries[i] == Some((key, value))
    requires forall j :: i < j < |entries| ==> !Defines(entries[j], key)
    ensures key in Assign(entries) && Assign(entries)[key] == value
    decreases |entries|
  {
    var init := entries[..|entries| - 1];
    if i < |entries| - 1 {
      assert !Defines(entries[|entries| - 1], key);
      forall j | i < j < |init| ensures !Defines(init[j], key) {
        assert init[j] == entries[j];
      }
      LastAssignmentWins(init, i, key, value);
    }
  }

  /** A key is in the table exactly when some line of the file defines it. */
  lemma EnvVarsKeys(lines: seq<string>, key: string)
    ensures key in CollectEnvVars(lines) <==> exists i :: 0 <= i < |lines| && Defines(ParseLine(lines[i]), key)
  {
    var entries := ParseAll(lines);
    AssignKeys(entries, key);
    forall i | 0 <= i < |lines| ensures Defines(entries[i], key) == Defines(ParseLine(lines[i]), key) {
      assert entries[i] == ParseLine(lines[i]);
    }
  }

  /** When several lines define a key, the value on the last of them is kept. */
  lemma LastDefinitionWins(lines: seq<string>, i: nat, key: string, value: string)
    requires i < |lines| && ParseLine(lines[i]) == Some((key, value))
    requires forall j :: i < j < |lines| ==> !Defines(ParseLine(lines[j]), key)
    ensures key in CollectEnvVars(lines) && CollectEnvVars(lines)[key] == value
  {
    var entries := ParseAll(lines);
    forall j | i < j < |entries| ensures !Defines(entries[j], key) {
      assert entries[j] == ParseLine(lines[j]);
    }
    LastAssignmentWins(entries, i, key, value);
  }

  /** A line parses the same with a carriage return at its end. */
  lemma ParseLineIgnoresCr(line: string)
    ensures ParseLine(line + ['\r']) == ParseLine(line)
  {
    TrimIgnoresTrailingSpace(line, '\r');
  }

  /** Lines that differ only by trailing carriage returns build the same table. */
  lemma CollectEnvVarsIgnoresCr(lines: seq<string>, withCr: seq<string>)
    requires |withCr| == |lines|
    requires forall i :: 0 <= i < |lines| ==> withCr[i] == lines[i] || withCr[i] == lines[i] + ['\r']
    ensures CollectEnvVars(withCr) == CollectEnvVars(lines)
  {
    forall i | 0 <= i < |lines| ensures ParseLine(withCr[i]) == ParseLine(lines[i]) {
      ParseLineIgnoresCr(lines[i]);
    }
    assert ParseAll(withCr) == ParseAll(lines);
  }

  /** The same text with every LF line ending written as CRLF. */
  function ToCrlf(s: string): string
    decreases |s|
  {
    if s == [] then [] else (if s[0] == '\n' then ['\r', '\n'] else [s[0]]) + ToCrlf(s[1..])
  }

  /** `crlf` holds the lines of `lines`, each but the last with a CR at its end. */
  predicate CrlfLines(crlf: seq<string>, lines: seq<string>) {
    && |crlf| == |lines| >= 1
    && crlf[|lines| - 1] == lines[|lines| - 1]
    && forall i :: 0 <= i < |lines| - 1 ==> crlf[i] == lines[i] + ['\r']
  }

  /** An LF before the lines is a CR LF before their CRLF form. */
  lemma CrlfLinesNewline(crlf: seq<string>, lines: seq<string>)
    requires CrlfLines(crlf, lines)
    ensures CrlfLines([['\r']] + crlf, [[]] + lines)
  {
    var c, l := [['\r']] + crlf, [[]] + lines;
    forall i | 0 <= i < |l| - 1
      ensures c[i] == l[i] + ['\r']
    {
      if i > 0 {
        assert c[i] == crlf[i - 1] && l[i] == lines[i - 1];
      }
    }
  }

  /** Any other character before the lines opens the first line in both forms. */
  lemma CrlfLinesChar(ch: char, crlf: seq<string>, lines: seq<string>)
    requires CrlfLines(crlf, lines)
    ensures CrlfLines([[ch] + crlf[0]] + crlf[1..], [[ch] + lines[0]] + lines[1..])
  {
    var c, l := [[ch] + crlf[0]] + crlf[1..], [[ch] + lines[0]] + lines[1..];
    forall i | 0 <= i < |l| - 1
      ensures c[i] == l[i] + ['\r']
    {
      if i > 0 {
        assert c[i] == crlf[i] && l[i] == lines[i];
      }
    }
  }

  /** Splitting CRLF text on LF gives the LF lines, each but the last with a CR at its end. */
  lemma {:induction false} SplitCrlf(s: string)
    ensures CrlfLines(Split(ToCrlf(s), '\n'), Split(s, '\n'))
    decreases |s|
  {
    if s == [] {
      assert Split(ToCrlf(s), '\n') == [[]];
    } else {
      SplitCrlf(s[1..]);
      SplitCrlfStep(s);
    }
  }

  lemma SplitCrlfStep(s: string)
    requires s != [] && CrlfLines(Split(ToCrlf(s[1..]), '\n'), Split(s[1..], '\n'))
    ensures CrlfLines(Split(ToCrlf(s), '\n'), Split(s, '\n'))
  {
    assert s == [s[0]] + s[1..];
    if s[0] == '\n' {
      SplitCrlfNewline(s[1..]);
    } else {
      SplitCrlfOther(s[0], s[1..]);
    }
  }

  /** A leading LF becomes CR LF, which ends an empty first line with a CR. */
  lemma SplitCrlfNewline(rest: string)
    requires CrlfLines(Split(ToCrlf(rest), '\n'), Split(rest, '\n'))
    ensures CrlfLines(Split(ToCrlf(['\n'] + rest), '\n'), Split(['\n'] + rest, '\n'))
  {
    var t := ToCrlf(rest);
    assert (['\n'] + rest)[1..] == rest;
    assert ToCrlf(['\n'] + rest) == ['\r'] + (['\n'] + t);
    SplitCons('\n', rest, '\n');
    SplitCons('\n', t, '\n');
    SplitCons('\r', ['\n'] + t, '\n');
    CrlfLinesNewline(Split(t, '\n'), Split(rest, '\n'));
  }

  /** Any other leading character stays as it is and opens the first line in both forms. */
  lemma SplitCrlfOther(c: char, rest: string)
    requires c != '\n'
    requires CrlfLines(Split(ToCrlf(rest), '\n'), Split(rest, '\n'))
    ensures CrlfLines(Split(ToCrlf([c] + rest), '\n'), Split([c] + rest, '\n'))
  {
    var t := ToCrlf(rest);
    assert ([c] + rest)[1..] == rest;
    assert ToCrlf([c] + rest) == [c] + t;
    SplitCons(c, rest, '\n');
    SplitCons(c, t, '\n');
    CrlfLinesChar(c, Split(t, '\n'), Split(rest, '\n'));
  }

  /** A `.env` file saved with CRLF line endings gives the same table as with LF endings. */
  lemma CrlfFileParsesSame(content: string)
    ensures EnvVarsOf(Some(ToCrlf(content))) == EnvVarsOf(Some(content))
  {
    var lines := Lines(content);
    var withCr := Lines(ToCrlf(content));
    SplitCrlf(content);
    assert forall i :: 0 <= i < |lines| ==> withCr[i] == lines[i] || withCr[i] == lines[i] + ['\r'] by {
      forall i | 0 <= i < |lines| ensures withCr[i] == lines[i] || withCr[i] == lines[i] + ['\r'] {
        if i < |lines| - 1 {
          assert withCr[i] == lines[i] + ['\r'];
        }
      }
    }
    CollectEnvVarsIgnoresCr(lines, withCr);
  }

  /** A missing entry reads as `undefined`, which is falsy like the empty string. */
  function Lookup(m: map<string, string>, key: string): string {
    if key in m then m[key] else []
  }

  /**
   * `envVars.KEY || process.env.KEY || ''`: the `.env` value if it is not
   * empty, else the process environment's value if it is not empty, else empty.
   */
  function Resolve(envVars: map<string, string>, processEnv: map<string, string>, key: string): (value: string)
    ensures Lookup(envVars, key) != [] ==> value == envVars[key]
    ensures Lookup(envVars, key) == [] && Lookup(processEnv, key) != [] ==> value == processEnv[key]
    ensures value == [] <==> Lookup(envVars, key) == [] && Lookup(processEnv, key) == []
  {
    Or(Or(Lookup(envVars, key), Lookup(processEnv, key)), "")
  }

  /** The three resolved keys. */
  function ResolveEnvironment(envVars: map<string, string>, processEnv: map<string, string>): Environment {
    Environment(
      Resolve(envVars, processEnv, GeminiKeyName),
      Resolve(envVars, processEnv, SearchKeyName),
      Resolve(envVars, processEnv, EngineIdName))
  }

  const Preamble := "/**\n * Development environment configuration.\n * Auto-generated from .env file. Do not edit directly.\n */\nexport const environment = {\n"

  /** One `name: 'value',` line of the generated object literal. */
  function QuotedField(name: string, value: string): string {
    "  " + name + ": '" + value + "',\n"
  }

  const ProductionLine := "  production: false,\n"

  /** The text written to src/environments/environment.ts; the values go in unescaped. */
  function EnvironmentTs(env: Environment): (text: string)
    ensures StartsWith(text, Preamble + ProductionLine)
    ensures |text| >= 3 && text[|text| - 3..] == "};\n"
  {
    Preamble
    + ProductionLine
    + QuotedField("geminiApiKey", env.geminiApiKey)
    + QuotedField("googleSearchApiKey", env.googleSearchApiKey)
    + QuotedField("googleSearchEngineId", env.googleSearchEngineId)
    + "};\n"
  }

  /** The text `name: 'value',` that a field line carries. */
  function FieldText(name: string, value: string): string {
    name + ": '" + value + "',"
  }

  lemma FieldLineCarriesValue(name: string, value: string)
    ensures Contains(QuotedField(name, value), FieldText(name, value))
  {
    assert QuotedField(name, value) == "  " + FieldText(name, value) + "\n";
    ContainsInside("  ", FieldText(name, value), "\n");
  }

  /** The generated file is a development build. */
  lemma GeneratedFileIsDevelopment(env: Environment)
    ensures Contains(EnvironmentTs(env), "production: false,")
  {
    var production := "production: false,";
    assert ProductionLine == "  " + production + "\n";
    ContainsInside("  ", production, "\n");
    var gemini := QuotedField("geminiApiKey", env.geminiApiKey);
    var search := QuotedField("googleSearchApiKey", env.googleSearchApiKey);
    var engine := QuotedField("googleSearchEngineId", env.googleSearchEngineId);
    ContainsInPrefix(Preamble, ProductionLine, production);
    ContainsInPrefix(Preamble + ProductionLine, gemini, production);
    ContainsInPrefix(Preamble + ProductionLine + gemini, search, production);
    ContainsInPrefix(Preamble + ProductionLine + gemini + search, engine, production);
    ContainsInPrefix(Preamble + ProductionLine + gemini + search + engine, "};\n", production);
  }

  /** The generated file carries the Gemini key verbatim between single quotes. */
  lemma GeneratedFileCarriesGeminiKey(env: Environment)
    ensures Contains(EnvironmentTs(env), FieldText("geminiApiKey", env.geminiApiKey))
  {
    var text := FieldText("geminiApiKey", env.geminiApiKey);
    var gemini := QuotedField("geminiApiKey", env.geminiApiKey);
    var search := QuotedField("googleSearchApiKey", env.googleSearchApiKey);
    var engine := QuotedField("googleSearchEngineId", env.googleSearchEngineId);
    FieldLineCarriesValue("geminiApiKey", env.geminiApiKey);
    ContainsInPrefix(Preamble + ProductionLine, gemini, text);
    ContainsInPrefix(Preamble + ProductionLine + gemini, search, text);
    ContainsInPrefix(Preamble + ProductionLine + gemini + search, engine, text);
    ContainsInPrefix(Preamble + ProductionLine + gemini + search + engine, "};\n", text);
  }

  /** The generated file carries the Custom Search key verbatim between single quotes. */
  lemma GeneratedFileCarriesSearchKey(env: Environment)
    ensures Contains(EnvironmentTs(env), FieldText("googleSearchApiKey", env.googleSearchApiKey))
  {
    var text := FieldText("googleSearchApiKey", env.googleSearchApiKey);
    var gemini := QuotedField("geminiApiKey", env.geminiApiKey);
    var search := QuotedField("googleSearchApiKey", env.googleSearchApiKey);
    var engine := QuotedField("googleSearchEngineId", env.googleSearchEngineId);
    FieldLineCarriesValue("googleSearchApiKey", env.googleSearchApiKey);
    ContainsInPrefix(Preamble + ProductionLine + gemini, search, text);
    ContainsInPrefix(Preamble + ProductionLine + gemini + search, engine, text);
    ContainsInPrefix(Preamble + ProductionLine + gemini + search + engine, "};\n", text);
  }

  /** The generated file carries the search engine id verbatim between single quotes. */
  lemma GeneratedFileCarriesEngineId(env: Environment)
    ensures Contains(EnvironmentTs(env), FieldText("googleSearchEngineId", env.googleSearchEngineId))
  {
    var text := FieldText("googleSearchEngineId", env.googleSearchEngineId);
    var gemini := QuotedField("geminiApiKey", env.geminiApiKey);
    var search := QuotedField("googleSearchApiKey", env.googleSearchApiKey);
    var engine := QuotedField("googleSearchEngineId", env.googleSearchEngineId);
    FieldLineCarriesValue("googleSearchEngineId", env.googleSearchEngineId);
    ContainsInPrefix(Preamble + ProductionLine + gemini + search, engine, text);
    ContainsInPrefix(Preamble + ProductionLine + gemini + search + engine, "};\n", text);
  }

  /** The script warns that Custom Search is not configured when its key or its engine id is empty. */
  predicate CustomSearchUnconfigured(env: Environment) {
    env.googleSearchApiKey == [] || env.googleSearchEngineId == []
  }

  /** The whole script: the text it writes and whether it prints the Custom Search warning. */
  method GenerateEnvironmentFile(envFile: Option<string>, processEnv: map<string, string>)
    returns (environmentTs: string, warning: bool)
    ensures var env := ResolveEnvironment(EnvVarsOf(envFile), processEnv);
      environmentTs == EnvironmentTs(env) && warning == CustomSearchUnconfigured(env)
  {
    var envVars := LoadEnvVars(envFile);
    var geminiApiKey := Or(Or(Lookup(envVars, GeminiKeyName), Lookup(processEnv, GeminiKeyName)), "");
    var googleSearchApiKey := Or(Or(Lookup(envVars, SearchKeyName), Lookup(processEnv, SearchKeyName)), "");
    var googleSearchEngineId := Or(Or(Lookup(envVars, EngineIdName), Lookup(processEnv, EngineIdName)), "");
    environmentTs := EnvironmentTs(Environment(geminiApiKey, googleSearchApiKey, googleSearchEngineId));
    warning := googleSearchApiKey == [] || googleSearchEngineId == [];
  }
}
