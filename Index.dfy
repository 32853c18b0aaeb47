/**
 * The start-up code of src/index.ts: the redirection of `console.log` and
 * `process.stdout.write` that keeps stdout for JSON-RPC, and
 * `loadEnvironment`, which reads a `.env` file with its own lossy line
 * parser and then falls back to `config.json` for missing credentials.
 */
module Index {
  import opened Wrappers
  import opened Strings

  // ---------------------------------------------------------------------
  // Output redirection (index.ts:12-26)
  // ---------------------------------------------------------------------

  /** What is passed to `process.stdout.write`: a string or a buffer. */
  datatype Chunk = Text(text: string) | Bytes(bytes: seq<bv8>)

  datatype Stream = Stdout | Stderr

  /** Where the replaced `process.stdout.write` sends a chunk. */
  function Destination(chunk: Chunk): (d: Stream)
    ensures chunk.Bytes? ==> d == Stdout
    ensures chunk.Text? ==>
      (d == Stdout <==> |Trim(chunk.text)| > 0 && Trim(chunk.text)[0] == '{')
  {
    if chunk.Text? && !StartsWith(Trim(chunk.text), "{") then Stderr else Stdout
  }

  /** Trimming text that has a first non-whitespace character starts with that character. */
  lemma TrimStartsAtFirstCharacter(ws: string, t: string)
    requires AllWhitespace(ws) && |t| > 0 && !IsWhitespace(t[0])
    ensures |Trim(ws + t)| > 0 && Trim(ws + t)[0] == t[0]
  {
    var s := ws + t;
    assert s[..|ws|] == ws;
    LeadingWhitespaceAt(s, |ws|);
    var r := Trim(s);
    assert |r| > 0 by {
      assert !IsWhitespace(s[|ws|]);
    }
    assert r[0] == s[|ws|];
  }

  /** A JSON-RPC message, however much whitespace precedes it, reaches stdout. */
  lemma MessageReachesStdout(ws: string, message: string)
    requires AllWhitespace(ws) && |message| > 0 && message[0] == '{'
    ensures Destination(Text(ws + message)) == Stdout
  {
    TrimStartsAtFirstCharacter(ws, message);
  }

  /** Text whose first non-whitespace character is not `{` goes to stderr, and so does blank text. */
  lemma StrayTextReachesStderr(ws: string, t: string)
    requires AllWhitespace(ws) && (t == "" || (!IsWhitespace(t[0]) && t[0] != '{'))
    ensures Destination(Text(ws + t)) == Stderr
  {
    if t == "" {
      assert ws + t == ws;
      LeadingWhitespaceAll(ws);
    } else {
      TrimStartsAtFirstCharacter(ws, t);
    }
  }

  /** A string of whitespace only trims to the empty string. */
  lemma {:induction false} LeadingWhitespaceAll(ws: string)
    requires AllWhitespace(ws)
    ensures LeadingWhitespace(ws) == |ws|
  {
    if |ws| > 0 {
      assert AllWhitespace(ws[1..]) by {
        forall k | 0 <= k < |ws[1..]| ensures IsWhitespace(ws[1..][k]) {
          assert ws[1..][k] == ws[k + 1];
        }
      }
      LeadingWhitespaceAll(ws[1..]);
    }
  }

  /** The line the replaced `console.log` writes to stderr for string arguments. */
  function LogLine(args: seq<string>): (line: string)
    ensures StartsWith(line, "[LOG]") && line[|line| - 1] == '\n'
  {
    var body := Join(["[LOG]"] + args, ' ');
    JoinStartsWithFirst(["[LOG]"] + args, ' ');
    body + "\n"
  }

  /** A join begins with its first part. */
  lemma JoinStartsWithFirst(parts: seq<string>, c: char)
    requires |parts| > 0
    ensures StartsWith(Join(parts, c), parts[0])
  {
    if |parts| > 1 {
      assert (parts[0] + [c] + Join(parts[1..], c))[..|parts[0]|] == parts[0];
    }
  }

  /**
   * The two output streams as the redirected process sees them, each the
   * sequence of chunks written to it.
   */
  class Console {
    var stdout: seq<Chunk>
    var stderr: seq<Chunk>

    constructor ()
      ensures stdout == [] && stderr == []
    {
      stdout := [];
      stderr := [];
    }

    /**
     * The replaced `process.stdout.write`. `accepted` is what the original
     * stdout writer reports; the redirect to stderr always reports true.
     */
    method Write(chunk: Chunk, accepted: bool) returns (r: bool)
      modifies this
      ensures Destination(chunk) == Stderr ==>
        stderr == old(stderr) + [chunk] && stdout == old(stdout) && r
      ensures Destination(chunk) == Stdout ==>
        stdout == old(stdout) + [chunk] && stderr == old(stderr) && r == accepted
    {
      if chunk.Text? && !StartsWith(Trim(chunk.text), "{") {
        stderr := stderr + [chunk];
        return true;
      }
      stdout := stdout + [chunk];
      return accepted;
    }

    /** The replaced `console.log`: everything goes to stderr, tagged `[LOG]`. */
    method Log(args: seq<string>)
      modifies this
      ensures stderr == old(stderr) + [Text(LogLine(args))] && stdout == old(stdout)
    {
      stderr := stderr + [Text(LogLine(args))];
    }
  }

  // ---------------------------------------------------------------------
  // loadEnvironment (index.ts:30-57)
  // ---------------------------------------------------------------------

  /**
   * How `loadEnvironment` reads one line: `const [key, value] = line.split('=')`
   * and `if (key && value)`. Only the text between the first and the second
   * `=` is the value; both parts are trimmed when stored.
   */
  function EnvEntry(line: string): (r: Option<(string, string)>)
    ensures r.Some? ==> '=' !in r.value.0 && '=' !in r.value.1
    ensures r.Some? ==> Trim(r.value.0) == r.value.0 && Trim(r.value.1) == r.value.1
  {
    var parts := Split(line, '=');
    if |parts| >= 2 && parts[0] != "" && parts[1] != "" then
      TrimIdempotent(parts[0]);
      TrimIdempotent(parts[1]);
      TrimWithin(parts[0], '=');
      TrimWithin(parts[1], '=');
      Some((Trim(parts[0]), Trim(parts[1])))
    else None
  }

  /** Trimming introduces no character. */
  lemma TrimWithin(s: string, c: char)
    requires c !in s
    ensures c !in Trim(s)
  {
    var r := Trim(s);
    var a := LeadingWhitespace(s);
    forall k | 0 <= k < |r| ensures r[k] != c {
      assert r[k] == s[a + k];
    }
  }

  /** `key=value` stores the trimmed key and the trimmed value. */
  lemma EnvEntryOfPair(key: string, value: string)
    requires '=' !in key && '=' !in value && key != "" && value != ""
    ensures EnvEntry(key + "=" + value) == Some((Trim(key), Trim(value)))
  {
    var line := key + "=" + value;
    assert line == key + ['='] + value;
    SplitAtSeparator(key, '=', value);
    SplitNoSeparator(value, '=');
    assert Split(line, '=') == [key, value];
  }

  /** `key=value=more` stores the same as `key=value`: whatever follows the second `=` is lost. */
  lemma EnvEntryDropsRest(key: string, value: string, more: string)
    requires '=' !in key && '=' !in value && key != "" && value != ""
    ensures EnvEntry(key + "=" + value + "=" + more) == Some((Trim(key), Trim(value)))
  {
    var line := key + "=" + value + "=" + more;
    var tail := value + ['='] + more;
    assert line == key + ['='] + tail;
    SplitAtSeparator(key, '=', tail);
    SplitAtSeparator(value, '=', more);
    var parts := Split(line, '=');
    assert parts == [key] + ([value] + Split(more, '='));
    assert parts[0] == key && parts[1] == value;
  }

  /** A line without `=` is skipped. */
  lemma EnvEntryWithoutEquals(line: string)
    requires '=' !in line
    ensures EnvEntry(line) == None
  {
    SplitNoSeparator(line, '=');
  }

  /** A line with nothing before its first `=` is skipped. */
  lemma EnvEntryEmptyKey(rest: string)
    ensures EnvEntry("=" + rest) == None
  {
    assert "=" + rest == "" + ['='] + rest;
    SplitAtSeparator("", '=', rest);
  }

  /** A line with nothing between its first `=` and the next `=` or the end is skipped. */
  lemma EnvEntryEmptyValue(key: string, rest: string)
    requires '=' !in key && (rest == "" || rest[0] == '=')
    ensures EnvEntry(key + "=" + rest) == None
  {
    assert key + "=" + rest == key + ['='] + rest;
    SplitAtSeparator(key, '=', rest);
    if rest != "" {
      assert rest == "" + ['='] + rest[1..];
      SplitAtSeparator("", '=', rest[1..]);
    }
  }

  /** What each line stores, in order. */
  function Entries(lines: seq<string>): (r: seq<Option<(string, string)>>)
    ensures |r| == |lines| && forall k :: 0 <= k < |lines| ==> r[k] == EnvEntry(lines[k])
  {
    seq(|lines|, k requires 0 <= k < |lines| => EnvEntry(lines[k]))
  }

  /** The environment after storing the entries in order. */
  function Store(env: map<string, string>, entries: seq<Option<(string, string)>>): map<string, string> {
    if |entries| == 0 then env
    else
      var before := Store(env, entries[..|entries| - 1]);
      match entries[|entries| - 1]
      case Some((key, value)) => before[key := value]
      case None => before
  }

  /** Storing one more entry. */
  lemma StoreNext(env: map<string, string>, entries: seq<Option<(string, string)>>, i: nat)
    requires i < |entries|
    ensures var before := Store(env, entries[..i]);
      Store(env, entries[..i + 1]) ==
        if entries[i].Some? then before[entries[i].value.0 := entries[i].value.1] else before
  {
    assert entries[..i + 1][..i] == entries[..i];
  }

  /** The environment after the lines of a `.env` file. */
  function EnvAfter(env: map<string, string>, lines: seq<string>): map<string, string> {
    Store(env, Entries(lines))
  }

  /** The value the last entry for `key` stores, if there is one. */
  function LastValueFor(entries: seq<Option<(string, string)>>, key: string): Option<string> {
    if |entries| == 0 then None
    else
      var last := entries[|entries| - 1];
      if last.Some? && last.value.0 == key then Some(last.value.1)
      else LastValueFor(entries[..|entries| - 1], key)
  }

  /** The entry stores `key`. */
  predicate SetsKey(entry: Option<(string, string)>, key: string) {
    entry.Some? && entry.value.0 == key
  }

  /** The value found for a key is stored by one of the entries, and no later entry sets the key. */
  lemma {:induction false} LastValueForIsLast(entries: seq<Option<(string, string)>>, key: string)
    requires LastValueFor(entries, key).Some?
    ensures exists k :: 0 <= k < |entries| && entries[k] == Some((key, LastValueFor(entries, key).value)) &&
                        forall m :: k < m < |entries| ==> !SetsKey(entries[m], key)
  {
    var init, last := entries[..|entries| - 1], entries[|entries| - 1];
    if !SetsKey(last, key) {
      LastValueForIsLast(init, key);
      var k :| 0 <= k < |init| && init[k] == Some((key, LastValueFor(init, key).value)) &&
               forall m :: k < m < |init| ==> !SetsKey(init[m], key);
      assert entries[k] == init[k];
      forall m | k < m < |entries| ensures !SetsKey(entries[m], key) {
        if m < |init| {
          assert entries[m] == init[m];
        }
      }
    } else {
      assert entries[|entries| - 1] == Some((key, LastValueFor(entries, key).value));
    }
  }

  /** After the entries, a key some entry sets holds the value of the last such entry. */
  lemma {:induction false} StoreLastEntryWins(env: map<string, string>, entries: seq<Option<(string, string)>>, key: string)
    requires LastValueFor(entries, key).Some?
    ensures key in Store(env, entries) && Store(env, entries)[key] == LastValueFor(entries, key).value
  {
    var init, last := entries[..|entries| - 1], entries[|entries| - 1];
    if !SetsKey(last, key) {
      StoreLastEntryWins(env, init, key);
    }
  }

  /** A key no entry sets keeps its earlier value, or stays absent. */
  lemma {:induction false} StoreUnsetKey(env: map<string, string>, entries: seq<Option<(string, string)>>, key: string)
    requires LastValueFor(entries, key).None?
    ensures key in Store(env, entries) <==> key in env
    ensures key in env ==> Store(env, entries)[key] == env[key]
  {
    if |entries| > 0 {
      StoreUnsetKey(env, entries[..|entries| - 1], key);
    }
  }

  /** Storing entries never removes a variable. */
  lemma {:induction false} StoreKeepsKeys(env: map<string, string>, entries: seq<Option<(string, string)>>)
    ensures env.Keys <= Store(env, entries).Keys
  {
    if |entries| > 0 {
      StoreKeepsKeys(env, entries[..|entries| - 1]);
    }
  }

  /**
   * After the lines of a `.env` file, a key holds the value of the last line
   * that stores it, and a key no line stores is as it was.
   */
  lemma LastLineWins(env: map<string, string>, lines: seq<string>, key: string)
    ensures var v := LastValueFor(Entries(lines), key);
      && (v.Some? ==> key in EnvAfter(env, lines) && EnvAfter(env, lines)[key] == v.value)
      && (v.None? ==> (key in EnvAfter(env, lines) <==> key in env) && (key in env ==> EnvAfter(env, lines)[key] == env[key]))
  {
    if LastValueFor(Entries(lines), key).Some? {
      StoreLastEntryWins(env, Entries(lines), key);
    } else {
      StoreUnsetKey(env, Entries(lines), key);
    }
  }

  /** `config.garmin?.email` and `config.garmin?.password` of a `config.json` that parsed. */
  datatype ConfigRead =
    | NoConfig
    | Unreadable
    | Parsed(email: Option<string>, password: Option<string>)

  const EmailKey: string := "GARMIN_EMAIL"
  const PasswordKey: string := "GARMIN_PASSWORD"

  /** `process.env[key]` is set to a non-empty string. */
  predicate EnvTruthy(env: map<string, string>, key: string) {
    key in env && env[key] != ""
  }

  /** The string `process.env` stores for an assigned value: `undefined` becomes "undefined". */
  function EnvString(v: Option<string>): string {
    if v.Some? then v.value else "undefined"
  }

  /** `process.env[key] = process.env[key] || fromConfig`, as written. */
  function AssignAsWritten(env: map<string, string>, key: string, fromConfig: Option<string>): map<string, string> {
    if EnvTruthy(env, key) then env else env[key := EnvString(fromConfig)]
  }

  /** The `config.json` step as written (index.ts:45-51). */
  function ApplyConfigAsWritten(env: map<string, string>, config: ConfigRead): map<string, string> {
    if EnvTruthy(env, EmailKey) && EnvTruthy(env, PasswordKey) then env
    else match config
      case Parsed(email, password) =>
        AssignAsWritten(AssignAsWritten(env, EmailKey, email), PasswordKey, password)
      case _ => env
  }

  /**
   * With the email in `.env` and a `config.json` that has no password, the
   * process runs with the password "undefined" instead of reporting the
   * missing credential.
   */
  lemma MissingPasswordBecomesUndefined()
    ensures var env := ApplyConfigAsWritten(map[EmailKey := "a@b.c"], Parsed(None, None));
      EnvTruthy(env, PasswordKey) && env[PasswordKey] == "undefined"
  {
  }

  /** `process.env[key] ||= fromConfig`, assigning only a value `config.json` provides. */
  function Assign(env: map<string, string>, key: string, fromConfig: Option<string>): map<string, string> {
    if EnvTruthy(env, key) || fromConfig.None? then env else env[key := fromConfig.value]
  }

  /** The `config.json` step with missing values left unset. */
  function ApplyConfig(env: map<string, string>, config: ConfigRead): (r: map<string, string>)
    ensures r.Keys >= env.Keys
    ensures forall k :: k in env && k != EmailKey && k != PasswordKey ==> r[k] == env[k]
  {
    if EnvTruthy(env, EmailKey) && EnvTruthy(env, PasswordKey) then env
    else match config
      case Parsed(email, password) =>
        Assign(Assign(env, EmailKey, email), PasswordKey, password)
      case _ => env
  }

  /** The value a credential ends up with in `config.json`'s step. */
  lemma ConfigPrecedence(env: map<string, string>, config: ConfigRead, key: string)
    requires key == EmailKey || key == PasswordKey
    ensures var fromConfig := if !config.Parsed? then None else if key == EmailKey then config.email else config.password;
      var r := ApplyConfig(env, config);
      && (EnvTruthy(env, key) ==> r[key] == env[key])
      && (!EnvTruthy(env, key) && fromConfig.Some? ==> key in r && r[key] == fromConfig.value)
      && (!EnvTruthy(env, key) && fromConfig.None? ==> (key in r <==> key in env) && (key in env ==> r[key] == env[key]))
  {
  }

  /** `config.json` is not consulted once both credentials are set. */
  lemma ConfigNotConsulted(env: map<string, string>, config: ConfigRead)
    requires EnvTruthy(env, EmailKey) && EnvTruthy(env, PasswordKey)
    ensures ApplyConfig(env, config) == env
  {
  }

  /** A credential is set afterwards only if it was set before or `config.json` supplied it. */
  lemma ConfigInventsNothing(env: map<string, string>, config: ConfigRead, key: string)
    requires key == EmailKey || key == PasswordKey
    requires EnvTruthy(ApplyConfig(env, config), key)
    ensures EnvTruthy(env, key) || (config.Parsed? && (if key == EmailKey then config.email else config.password).Some?)
  {
  }

  /** The corrected step agrees with the source whenever `config.json` supplies what is missing. */
  lemma ApplyConfigAgrees(env: map<string, string>, config: ConfigRead)
    requires config.Parsed? ==>
      (EnvTruthy(env, EmailKey) || config.email.Some?) && (EnvTruthy(env, PasswordKey) || config.password.Some?)
    ensures ApplyConfig(env, config) == ApplyConfigAsWritten(env, config)
  {
  }

  /** `process.env` as `loadEnvironment` modifies it. */
  class ProcessEnv {
    var vars: map<string, string>

    constructor (initial: map<string, string>)
      ensures vars == initial
    {
      vars := initial;
    }

    /** The `.env` loop (index.ts:34-42); `dotenv` is the file's content, `None` when it does not exist. */
    method LoadDotEnv(dotenv: Option<string>)
      modifies this
      ensures vars == if dotenv.None? then old(vars) else EnvAfter(old(vars), Split(dotenv.value, '\n'))
    {
      if dotenv.Some? {
        var lines := Split(dotenv.value, '\n');
        ghost var entries := Entries(lines);
        var i := 0;
        while i < |lines|
          invariant 0 <= i <= |lines|
          invariant vars == Store(old(vars), entries[..i])
        {
          var entry := EnvEntry(lines[i]);
          StoreNext(old(vars), entries, i);
          if entry.Some? {
            vars := vars[entry.value.0 := entry.value.1];
          }
          i := i + 1;
        }
        assert entries[..|lines|] == entries;
      }
    }

    /** The `config.json` step (index.ts:45-56); `config` is what reading and parsing the file gives. */
    method LoadConfig(config: ConfigRead)
      modifies this
      ensures vars == ApplyConfig(old(vars), config)
    {
      if !EnvTruthy(vars, EmailKey) || !EnvTruthy(vars, PasswordKey) {
        if config.Parsed? {
          if !EnvTruthy(vars, EmailKey) && config.email.Some? {
            vars := vars[EmailKey := config.email.value];
          }
          if !EnvTruthy(vars, PasswordKey) && config.password.Some? {
            vars := vars[PasswordKey := config.password.value];
          }
        }
      }
    }

    /** `loadEnvironment`: the `.env` lines, then `config.json` for what is still missing. */
    method LoadEnvironment(dotenv: Option<string>, config: ConfigRead)
      modifies this
      ensures vars == ApplyConfig(if dotenv.None? then old(vars) else EnvAfter(old(vars), Split(dotenv.value, '\n')), config)
    {
      LoadDotEnv(dotenv);
      LoadConfig(config);
    }
  }
}
