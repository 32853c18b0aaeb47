/**
 * The `.env` handling of scripts/setup-encryption.ts: the credential scan of
 * `checkExistingEnv`, the rewrite of `updateEnvFile`, and the keystroke
 * handler `promptPassword` installs on a raw-mode terminal.
 */
module SetupEnv {
  import opened Wrappers
  import opened Strings

  // ---------------------------------------------------------------------
  // checkExistingEnv (setup-encryption.ts:133-162)
  // ---------------------------------------------------------------------

  /** The credentials found in a `.env` file. */
  datatype Credentials = Credentials(email: Option<string>, password: Option<string>)

  /**
   * How `checkExistingEnv` reads one line: `None` for a comment or a line
   * without `=`, otherwise the text before the first `=` of the trimmed line
   * (not trimmed again) and everything after it, rejoined and trimmed.
   */
  function ParseLine(line: string): Option<(string, string)> {
    var trimmed := Trim(line);
    if StartsWith(trimmed, "#") || '=' !in trimmed then None
    else
      var parts := Split(trimmed, '=');
      Some((parts[0], Trim(Join(parts[1..], '='))))
  }

  /** The key is cut at the first `=` and the value keeps every later `=`. */
  lemma ParseLineSplitsAtFirstEquals(line: string)
    requires !StartsWith(Trim(line), "#") && '=' in Trim(line)
    ensures var trimmed := Trim(line);
      var i := IndexOf(trimmed, '=').value;
      ParseLine(line) == Some((trimmed[..i], Trim(trimmed[i + 1..])))
  {
    var trimmed := Trim(line);
    var parts := Split(trimmed, '=');
    SplitRest(trimmed, '=', IndexOf(trimmed, '=').value);
    assert ParseLine(line) == Some((parts[0], Trim(Join(parts[1..], '='))));
  }

  /** A value is accepted unless it is empty or mentions `ENCRYPTED`. */
  predicate Acceptable(value: string) {
    value != "" && !Contains(value, "ENCRYPTED")
  }

  /** The body of the `forEach` callback: one line's effect on the result. */
  function ApplyLine(result: Credentials, line: string): Credentials {
    match ParseLine(line)
    case None => result
    case Some((key, value)) =>
      if key == "GARMIN_EMAIL" && Acceptable(value) then result.(email := Some(value))
      else if key == "GARMIN_PASSWORD" && Acceptable(value) then result.(password := Some(value))
      else result
  }

  /** The credentials collected from `lines`, first to last. */
  function ScanLines(lines: seq<string>): Credentials {
    if |lines| == 0 then Credentials(None, None)
    else ApplyLine(ScanLines(lines[..|lines| - 1]), lines[|lines| - 1])
  }

  /** Comment lines and lines without `=` change nothing. */
  lemma IgnoredLine(result: Credentials, line: string)
    requires StartsWith(Trim(line), "#") || '=' !in Trim(line)
    ensures ApplyLine(result, line) == result
  {
  }

  /** A later accepted line overrides what earlier lines set. */
  lemma LaterLineOverrides(lines: seq<string>, line: string)
    requires ParseLine(line).Some? && Acceptable(ParseLine(line).value.1)
    ensures ParseLine(line).value.0 == "GARMIN_EMAIL" ==>
      ScanLines(lines + [line]).email == Some(ParseLine(line).value.1)
    ensures ParseLine(line).value.0 == "GARMIN_PASSWORD" ==>
      ScanLines(lines + [line]).password == Some(ParseLine(line).value.1)
  {
    assert (lines + [line])[..|lines + [line]| - 1] == lines;
  }

  /** A taken credential is always acceptable: never empty, never an `ENCRYPTED` marker. */
  lemma {:induction false} ScannedCredentialsAcceptable(lines: seq<string>)
    ensures ScanLines(lines).email.Some? ==> Acceptable(ScanLines(lines).email.value)
    ensures ScanLines(lines).password.Some? ==> Acceptable(ScanLines(lines).password.value)
  {
    if |lines| > 0 {
      ScannedCredentialsAcceptable(lines[..|lines| - 1]);
    }
  }

  /**
   * `checkExistingEnv`: `envContent` is `None` when the file is missing or
   * cannot be read, and the result is then empty.
   */
  method CheckExistingEnv(envContent: Option<string>) returns (result: Credentials)
    ensures envContent.None? ==> result == Credentials(None, None)
    ensures envContent.Some? ==> result == ScanLines(Split(envContent.value, '\n'))
  {
    result := Credentials(None, None);
    if envContent.None? {
      return;
    }
    var lines := Split(envContent.value, '\n');
    var i := 0;
    while i < |lines|
      invariant 0 <= i <= |lines|
      invariant result == ScanLines(lines[..i])
    {
      assert lines[..i + 1][..i] == lines[..i];
      result := ApplyLine(result, lines[i]);
      i := i + 1;
    }
    assert lines[..i] == lines;
  }

  // ---------------------------------------------------------------------
  // Lines of a text
  // ---------------------------------------------------------------------

  /** Position `j` of `s` is the start of a line. */
  predicate AtLineStart(s: string, j: int) {
    0 <= j <= |s| && (j == 0 || s[j - 1] == '\n')
  }

  /** A key prefix: it neither starts nor ends with whitespace and lies within one line. */
  predicate KeyPrefix(p: string) {
    |p| > 0 && !IsWhitespace(p[0]) && !IsWhitespace(p[|p| - 1]) && '\n' !in p
  }

  /** No line of `s` starts with `p` once its leading whitespace is skipped. */
  predicate NoLineStartsWith(s: string, p: string) {
    forall j, i :: 0 <= j <= i <= |s| && AtLineStart(s, j) && AllWhitespace(s[j..i]) ==> !OccursAt(s, p, i)
  }

  /** A text that starts with `p` right after its leading whitespace trims to one starting with `p`. */
  lemma TrimmedStartsWith(l: string, p: string, i: nat)
    requires KeyPrefix(p) && OccursAt(l, p, i) && AllWhitespace(l[..i])
    ensures StartsWith(Trim(l), p)
  {
    assert l[i] == p[0];
    assert l[i + |p| - 1] == p[|p| - 1];
    LeadingWhitespaceAt(l, i);
    var r := Trim(l);
    assert r[..|p|] == l[i..i + |p|];
  }

  /** `p`, which has no newline, cannot occur across a newline. */
  lemma NewlineBlocks(s: string, p: string, i: nat, k: nat)
    requires '\n' !in p && i <= k < i + |p| && k < |s| && s[k] == '\n'
    ensures !OccursAt(s, p, i)
  {
    if i + |p| <= |s| {
      assert s[i..i + |p|][k - i] == '\n';
    }
  }

  /** A single line whose trimmed text does not start with `p`. */
  lemma LineWithout(l: string, p: string)
    requires KeyPrefix(p) && '\n' !in l && !StartsWith(Trim(l), p)
    ensures NoLineStartsWith(l, p)
  {
    forall j, i | 0 <= j <= i <= |l| && AtLineStart(l, j) && AllWhitespace(l[j..i])
      ensures !OccursAt(l, p, i)
    {
      assert j == 0;
      assert l[..i] == l[j..i];
      if OccursAt(l, p, i) {
        TrimmedStartsWith(l, p, i);
      }
    }
  }

  /** Slicing distributes into the left operand of a concatenation. */
  lemma OccursInLeft(a: string, b: string, p: string, i: nat)
    requires i + |p| <= |a|
    ensures OccursAt(a + b, p, i) <==> OccursAt(a, p, i)
  {
    assert (a + b)[i..i + |p|] == a[i..i + |p|];
  }

  /** Slicing distributes into the right operand of a concatenation. */
  lemma OccursInRight(a: string, b: string, p: string, i: nat)
    requires |a| <= i
    ensures OccursAt(a + b, p, i) <==> OccursAt(b, p, i - |a|)
  {
    if i + |p| <= |a + b| {
      assert (a + b)[i..i + |p|] == b[i - |a|..i - |a| + |p|];
    }
  }

  /** Two texts without such a line, joined by a newline, have none either. */
  lemma ConcatWithout(a: string, b: string, p: string)
    requires KeyPrefix(p) && NoLineStartsWith(a, p) && NoLineStartsWith(b, p)
    ensures NoLineStartsWith(a + "\n" + b, p)
  {
    var s := a + "\n" + b;
    forall j, i | 0 <= j <= i <= |s| && AtLineStart(s, j) && AllWhitespace(s[j..i])
      ensures !OccursAt(s, p, i)
    {
      if i <= |a| {
        LeftLine(a, b, p, j, i);
      } else {
        RightLine(a, b, p, j, i);
      }
    }
  }

  lemma LeftLine(a: string, b: string, p: string, j: nat, i: nat)
    requires KeyPrefix(p) && NoLineStartsWith(a, p)
    requires var s := a + "\n" + b; j <= i <= |a| && AtLineStart(s, j) && AllWhitespace(s[j..i])
    ensures !OccursAt(a + "\n" + b, p, i)
  {
    var s := a + "\n" + b;
    assert s == a + ("\n" + b);
    assert AtLineStart(a, j) by {
      if j > 0 {
        assert s[j - 1] == a[j - 1];
      }
    }
    assert a[j..i] == s[j..i];
    if |a| < i + |p| {
      NewlineBlocks(s, p, i, |a|);
    } else {
      OccursInLeft(a, "\n" + b, p, i);
    }
  }

  lemma RightLine(a: string, b: string, p: string, j: nat, i: nat)
    requires KeyPrefix(p) && NoLineStartsWith(b, p)
    requires var s := a + "\n" + b; j <= i <= |s| && |a| < i && AtLineStart(s, j) && AllWhitespace(s[j..i])
    ensures !OccursAt(a + "\n" + b, p, i)
  {
    var front := a + "\n";
    var s := front + b;
    var n := |front|;
    var lo := if j < n then n else j;
    var i2, j2 := i - n, lo - n;
    assert AtLineStart(b, j2) by {
      if j2 > 0 {
        assert b[j2 - 1] == s[j - 1];
      }
    }
    assert s[n..n + |b|] == b;
    EmbeddedSlice(s, b, n, j2, i2);
    WhitespaceWithin(s, j, lo, i);
    OccursInRight(front, b, p, i);
  }

  /** A part of a whitespace slice is whitespace. */
  lemma WhitespaceWithin(s: string, j: nat, lo: nat, i: nat)
    requires j <= lo <= i <= |s| && AllWhitespace(s[j..i])
    ensures AllWhitespace(s[lo..i])
  {
    var x, y := s[lo..i], s[j..i];
    forall k | 0 <= k < |x| ensures IsWhitespace(x[k]) {
      assert x[k] == y[lo - j + k];
    }
  }

  /** Lines joined by newlines, none of them starting with `p` after trimming. */
  lemma {:induction false} JoinWithout(lines: seq<string>, p: string)
    requires KeyPrefix(p)
    requires forall k :: 0 <= k < |lines| ==> '\n' !in lines[k] && !StartsWith(Trim(lines[k]), p)
    ensures NoLineStartsWith(Join(lines, '\n'), p)
  {
    if |lines| == 0 {
    } else if |lines| == 1 {
      LineWithout(lines[0], p);
    } else {
      LineWithout(lines[0], p);
      JoinWithout(lines[1..], p);
      ConcatWithout(lines[0], Join(lines[1..], '\n'), p);
    }
  }

  /** Trimming a text does not make a line start with `p`. */
  lemma TrimWithout(s: string, p: string)
    requires KeyPrefix(p) && NoLineStartsWith(s, p)
    ensures NoLineStartsWith(Trim(s), p)
  {
    var c := Trim(s);
    forall j, i | 0 <= j <= i <= |c| && AtLineStart(c, j) && AllWhitespace(c[j..i])
      ensures !OccursAt(c, p, i)
    {
      TrimmedLine(s, p, j, i);
    }
  }

  lemma TrimmedLine(s: string, p: string, j: nat, i: nat)
    requires KeyPrefix(p) && NoLineStartsWith(s, p)
    requires var c := Trim(s); j <= i <= |c| && AtLineStart(c, j) && AllWhitespace(c[j..i])
    ensures !OccursAt(Trim(s), p, i)
  {
    var c := Trim(s);
    var a := LeadingWhitespace(s);
    assert AllWhitespace(s[..a]);
    EmbeddedLine(s, c, a, p, j, i);
  }

  lemma EmbeddedSlice(s: string, c: string, a: nat, lo: nat, hi: nat)
    requires a + |c| <= |s| && s[a..a + |c|] == c && lo <= hi <= |c|
    ensures s[a + lo..a + hi] == c[lo..hi]
  {
    var x, y := s[a + lo..a + hi], c[lo..hi];
    forall k | 0 <= k < hi - lo ensures x[k] == y[k] {
      assert c[lo + k] == s[a..a + |c|][lo + k];
    }
  }

  /** A line of `c`, which sits in `s` at `a` after whitespace only, is a line of `s`. */
  lemma EmbeddedLine(s: string, c: string, a: nat, p: string, j: nat, i: nat)
    requires KeyPrefix(p) && NoLineStartsWith(s, p)
    requires a + |c| <= |s| && s[a..a + |c|] == c && AllWhitespace(s[..a])
    requires j <= i <= |c| && AtLineStart(c, j) && AllWhitespace(c[j..i])
    ensures !OccursAt(c, p, i)
  {
    var j1 := if j == 0 then 0 else a + j;
    assert AtLineStart(s, j1) by {
      if j > 0 {
        assert s[a + j - 1] == s[a..a + |c|][j - 1];
      }
    }
    assert AllWhitespace(s[j1..a + i]) by {
      if j == 0 {
        EmbeddedSlice(s, c, a, 0, i);
        assert s[..a + i] == s[..a] + s[a..a + i];
      } else {
        EmbeddedSlice(s, c, a, j, i);
      }
    }
    assert !OccursAt(s, p, a + i);
    if i + |p| <= |c| {
      EmbeddedSlice(s, c, a, i, i + |p|);
    }
  }

  // ---------------------------------------------------------------------
  // updateEnvFile (setup-encryption.ts:167-197)
  // ---------------------------------------------------------------------

  /** The prefixes of the lines `updateEnvFile` removes. */
  const RemovedKeys: seq<string> :=
    ["GARMIN_EMAIL=", "GARMIN_PASSWORD=", "GARMIN_CREDENTIALS_ENCRYPTED=", "GARMIN_ENCRYPTION_READY="]

  const HeaderLine: string := "# Garmin MCP Encryption Configuration"
  const NoticeLine: string := "# Credentials are securely encrypted" + " - DO NOT add email/password here"
  const EncryptedFlagLine: string := "GARMIN_CREDENTIALS_ENCRYPTED=true"
  const ReadyFlagLine: string := "GARMIN_ENCRYPTION_READY=true"

  /** The filter callback: the trimmed line starts with none of the removed keys. */
  predicate KeepLine(line: string) {
    var trimmed := Trim(line);
    !StartsWith(trimmed, "GARMIN_EMAIL=") &&
    !StartsWith(trimmed, "GARMIN_PASSWORD=") &&
    !StartsWith(trimmed, "GARMIN_CREDENTIALS_ENCRYPTED=") &&
    !StartsWith(trimmed, "GARMIN_ENCRYPTION_READY=")
  }

  /** `lines.filter(KeepLine)`. */
  function KeptLines(lines: seq<string>): (r: seq<string>)
    ensures forall k :: 0 <= k < |r| ==> KeepLine(r[k]) && r[k] in lines
  {
    if |lines| == 0 then []
    else (if KeepLine(lines[0]) then [lines[0]] else []) + KeptLines(lines[1..])
  }

  /** Every line that passes the filter is kept. */
  lemma {:induction false} KeptLinesComplete(lines: seq<string>, l: string)
    requires l in lines && KeepLine(l)
    ensures l in KeptLines(lines)
  {
    if lines[0] != l {
      KeptLinesComplete(lines[1..], l);
    }
  }

  /** The filter keeps the surviving lines in their order. */
  lemma {:induction false} KeptLinesAppend(a: seq<string>, b: seq<string>)
    ensures KeptLines(a + b) == KeptLines(a) + KeptLines(b)
  {
    if |a| > 0 {
      assert (a + b)[0] == a[0];
      assert (a + b)[1..] == a[1..] + b;
      KeptLinesAppend(a[1..], b);
      var h := if KeepLine(a[0]) then [a[0]] else [];
      assert KeptLines(a + b) == h + KeptLines(a[1..] + b);
      assert KeptLines(a) == h + KeptLines(a[1..]);
    } else {
      assert a + b == b;
    }
  }

  /** What is left of the existing file: the kept lines, rejoined and trimmed. */
  function KeptContent(existing: Option<string>): string {
    if existing.None? then ""
    else Trim(Join(KeptLines(Split(existing.value, '\n')), '\n'))
  }

  /** The four lines `updateEnvFile` appends, without the final newline. */
  function ConfigurationBlock(): string {
    Block(HeaderLine, NoticeLine, EncryptedFlagLine, ReadyFlagLine)
  }

  /** Four lines joined by newlines. */
  function Block(h: string, n: string, e: string, r: string): string {
    h + "\n" + n + "\n" + e + "\n" + r
  }

  /** The content of the rewritten file; `existing` is `None` when there is no `.env` yet. */
  function UpdateEnvFile(existing: Option<string>): string {
    var content := KeptContent(existing);
    Trim(content + "\n\n" + ConfigurationBlock() + "\n") + "\n"
  }

  lemma RemovedKeyFacts(p: string)
    requires p in RemovedKeys
    ensures KeyPrefix(p) && p[0] == 'G'
  {
  }

  lemma CommentLineFacts()
    ensures |HeaderLine| > 0 && HeaderLine[0] == '#' && '\n' !in HeaderLine
    ensures |NoticeLine| > 0 && NoticeLine[0] == '#' && '\n' !in NoticeLine
  {
  }

  lemma FirstOfWhitespace(s: string)
    requires AllWhitespace(s)
    ensures |s| == 0 || IsWhitespace(s[0])
  {
  }

  lemma OccursAtFirst(s: string, p: string, i: int)
    requires |p| > 0
    ensures OccursAt(s, p, i) ==> s[i] == p[0]
  {
    if OccursAt(s, p, i) {
      assert s[i..i + |p|][0] == s[i];
    }
  }

  /** A single line that starts with neither whitespace nor the first character of `p`. */
  lemma LineNotStartingWith(l: string, p: string)
    requires |p| > 0 && '\n' !in l && |l| > 0 && !IsWhitespace(l[0]) && l[0] != p[0]
    ensures NoLineStartsWith(l, p)
  {
    forall j, i | 0 <= j <= i <= |l| && AtLineStart(l, j) && AllWhitespace(l[j..i])
      ensures !OccursAt(l, p, i)
    {
      assert j == 0;
      FirstOfWhitespace(l[j..i]);
      assert i == 0;
      OccursAtFirst(l, p, i);
    }
  }

  /** The kept content has no line starting with a removed key. */
  lemma KeptContentWithout(existing: Option<string>, p: string)
    requires p in RemovedKeys
    ensures NoLineStartsWith(KeptContent(existing), p)
  {
    RemovedKeyFacts(p);
    if existing.Some? {
      var kept := KeptLines(Split(existing.value, '\n'));
      forall k | 0 <= k < |kept| ensures '\n' !in kept[k] && !StartsWith(Trim(kept[k]), p) {
        var l := kept[k];
        assert l in Split(existing.value, '\n');
      }
      JoinWithout(kept, p);
      TrimWithout(Join(kept, '\n'), p);
    }
  }

  /** Trimming the kept content, a blank line and the block only drops the final newline. */
  lemma TrimAroundBlock(c: string, t: string)
    requires c == "" || (!IsWhitespace(c[0]) && !IsWhitespace(c[|c| - 1]))
    requires |t| > 0 && !IsWhitespace(t[0]) && !IsWhitespace(t[|t| - 1])
    ensures Trim(c + "\n\n" + t + "\n") == if c == "" then t else c + "\n\n" + t
  {
    var s := c + "\n\n" + t + "\n";
    assert s[|s| - 1..] == "\n";
    if c == "" {
      assert s == "\n\n" + t + "\n";
      assert s[..2] == "\n\n";
      TrimExact(s, 2, 1);
      assert s[2..|s| - 1] == t;
    } else {
      assert s[..0] == "";
      TrimExact(s, 0, 1);
      assert s[0..|s| - 1] == c + "\n\n" + t;
    }
  }

  /** The lines the rewrite puts before the two flags. */
  function Preamble(content: string): string {
    if content == "" then HeaderLine + "\n" + NoticeLine
    else content + "\n\n" + HeaderLine + "\n" + NoticeLine
  }

  /** The rewrite over arbitrary comment and flag lines `h`, `n`, `e` and `r`. */
  lemma ShapeOf(c: string, h: string, n: string, e: string, r: string)
    requires c == "" || (!IsWhitespace(c[0]) && !IsWhitespace(c[|c| - 1]))
    requires |h| > 0 && !IsWhitespace(h[0]) && |r| > 0 && !IsWhitespace(r[|r| - 1]) && r[|r| - 1] != '\n'
    ensures var out := Trim(c + "\n\n" + Block(h, n, e, r) + "\n") + "\n";
      && out == (if c == "" then h + "\n" + n else c + "\n\n" + h + "\n" + n) + "\n" + e + "\n" + r + "\n"
      && out[|out| - 1] == '\n' && out[|out| - 2] != '\n'
  {
    var t := Block(h, n, e, r);
    var t1 := h + "\n";
    var t2 := t1 + n;
    var t3 := t2 + "\n";
    var t4 := t3 + e;
    var t5 := t4 + "\n";
    assert t == t5 + r;
    assert t[0] == h[0];
    assert t[|t| - 1] == r[|r| - 1];
    TrimAroundBlock(c, t);
    if c != "" {
      var q := c + "\n\n";
      assert q + t == (q + t5) + r;
      assert q + t5 == (q + t4) + "\n";
      assert q + t4 == (q + t3) + e;
      assert q + t3 == (q + t2) + "\n";
      assert q + t2 == (q + t1) + n;
      assert q + t1 == (q + h) + "\n";
    }
  }

  lemma KeptContentTrimmed(existing: Option<string>)
    ensures var c := KeptContent(existing);
      c == "" || (!IsWhitespace(c[0]) && !IsWhitespace(c[|c| - 1]))
  {
  }

  lemma FlagLineFacts()
    ensures |HeaderLine| > 0 && !IsWhitespace(HeaderLine[0])
    ensures |ReadyFlagLine| > 0 && ReadyFlagLine[|ReadyFlagLine| - 1] == 'e'
  {
  }

  /**
   * The rewritten file is the kept content, a blank line, the two comment
   * lines and the two flag lines, and ends with one newline.
   */
  lemma UpdateEnvFileShape(existing: Option<string>)
    ensures var out := UpdateEnvFile(existing);
      && out == Preamble(KeptContent(existing)) + "\n" + EncryptedFlagLine + "\n" + ReadyFlagLine + "\n"
      && out[|out| - 1] == '\n' && out[|out| - 2] != '\n'
  {
    KeptContentTrimmed(existing);
    RewriteShape(KeptContent(existing));
  }

  lemma RewriteShape(c: string)
    requires c == "" || (!IsWhitespace(c[0]) && !IsWhitespace(c[|c| - 1]))
    ensures var out := Trim(c + "\n\n" + ConfigurationBlock() + "\n") + "\n";
      && out == Preamble(c) + "\n" + EncryptedFlagLine + "\n" + ReadyFlagLine + "\n"
      && out[|out| - 1] == '\n' && out[|out| - 2] != '\n'
  {
    FlagLineFacts();
    ShapeOf(c, HeaderLine, NoticeLine, EncryptedFlagLine, ReadyFlagLine);
  }

  /** The content and two lines without a line starting with `p` give a preamble without one. */
  lemma PreambleOfWithout(content: string, h: string, n: string, p: string)
    requires KeyPrefix(p) && NoLineStartsWith(content, p)
    requires NoLineStartsWith(h, p) && NoLineStartsWith(n, p)
    ensures NoLineStartsWith(if content == "" then h + "\n" + n else content + "\n\n" + h + "\n" + n, p)
  {
    ConcatWithout(h, n, p);
    if content != "" {
      assert NoLineStartsWith("", p);
      ConcatWithout("", h + "\n" + n, p);
      ConcatWithout(content, "" + "\n" + (h + "\n" + n), p);
      assert content + "\n" + ("" + "\n" + (h + "\n" + n)) == content + "\n\n" + h + "\n" + n;
    }
  }

  /**
   * No line before the two flag lines starts with a removed key, so the
   * rewritten file has exactly one line setting each flag and none setting
   * an email or a password.
   */
  lemma PreambleWithoutRemovedKeys(existing: Option<string>, p: string)
    requires p in RemovedKeys
    ensures NoLineStartsWith(Preamble(KeptContent(existing)), p)
  {
    RemovedKeyFacts(p);
    CommentLineFacts();
    KeptContentWithout(existing, p);
    LineNotStartingWith(HeaderLine, p);
    LineNotStartingWith(NoticeLine, p);
    PreambleOfWithout(KeptContent(existing), HeaderLine, NoticeLine, p);
  }

  // ---------------------------------------------------------------------
  // promptPassword's keystroke handler (setup-encryption.ts:91-117)
  // ---------------------------------------------------------------------

  /** Where the prompt stands: still reading, resolved with a password, or aborted by Ctrl+C. */
  datatype PromptState = Reading(password: string) | Resolved(password: string) | Aborted

  /** The first UTF-16 code unit of a chunk, as `charCodeAt(0)` reads it; `None` is NaN. */
  function FirstCode(chunk: string): Option<int> {
    if |chunk| == 0 then None
    else if chunk[0] as int < 0x10000 then Some(chunk[0] as int)
    else Some(0xD800 + (chunk[0] as int - 0x10000) / 0x400)
  }

  /** One `data` event: the new state and what is echoed to the terminal. */
  function Keystroke(state: PromptState, chunk: string): (PromptState, string) {
    if !state.Reading? then (state, "")
    else
      var password := state.password;
      match FirstCode(chunk)
      case None => (state, "")
      case Some(code) =>
        if code == 13 || code == 10 then (Resolved(password), "\n")
        else if code == 127 || code == 8 then
          if |password| > 0 then (Reading(password[..|password| - 1]), "\U{8} \U{8}") else (state, "")
        else if code == 3 then (Aborted, "")
        else if code >= 32 then (Reading(password + chunk), "*")
        else (state, "")
  }

  /** The state after a sequence of `data` events. */
  function Feed(state: PromptState, chunks: seq<string>): PromptState
    decreases |chunks|
  {
    if |chunks| == 0 then state else Feed(Keystroke(state, chunks[0]).0, chunks[1..])
  }

  /** A printable key other than DEL: code 32 or more, not 127. */
  predicate Printable(c: char) {
    32 <= c as int && c as int != 127
  }

  /** Typing printable keys appends them to the password, one per event. */
  lemma {:induction false} TypingAppends(password: string, typed: string)
    requires forall k :: 0 <= k < |typed| ==> Printable(typed[k])
    ensures Feed(Reading(password), seq(|typed|, k requires 0 <= k < |typed| => [typed[k]])) == Reading(password + typed)
    decreases |typed|
  {
    var chunks := seq(|typed|, k requires 0 <= k < |typed| => [typed[k]]);
    if |typed| > 0 {
      var c := typed[0];
      assert FirstCode([c]) == Some(c as int) || (c as int >= 0x10000 && FirstCode([c]).value >= 0xD800);
      assert Keystroke(Reading(password), [c]).0 == Reading(password + [c]);
      assert chunks[1..] == seq(|typed[1..]|, k requires 0 <= k < |typed[1..]| => [typed[1..][k]]);
      TypingAppends(password + [c], typed[1..]);
      assert password + [c] + typed[1..] == password + typed;
    }
  }

  /** Backspace removes the last character and is ignored on an empty password; Enter resolves. */
  lemma EditingKeys(password: string)
    ensures password != "" ==> Keystroke(Reading(password), "\U{7f}").0 == Reading(password[..|password| - 1])
    ensures password != "" ==> Keystroke(Reading(password), "\U{8}").0 == Reading(password[..|password| - 1])
    ensures Keystroke(Reading(""), "\U{7f}") == (Reading(""), "")
    ensures Keystroke(Reading(password), "\r") == (Resolved(password), "\n")
    ensures Keystroke(Reading(password), "\n") == (Resolved(password), "\n")
    ensures Keystroke(Reading(password), "\U{3}").0 == Aborted
  {
  }

  /** Control codes other than the editing keys, and empty chunks, change nothing. */
  lemma IgnoredKeys(password: string, chunk: string)
    requires chunk == "" || (chunk[0] as int < 32 && chunk[0] as int !in {3, 8, 10, 13})
    ensures Keystroke(Reading(password), chunk) == (Reading(password), "")
  {
  }

  /** Once resolved or aborted, the handler is detached and nothing changes any more. */
  lemma {:induction false} FinishedIsFinal(state: PromptState, chunks: seq<string>)
    requires !state.Reading?
    ensures Feed(state, chunks) == state
    decreases |chunks|
  {
    if |chunks| > 0 {
      FinishedIsFinal(state, chunks[1..]);
    }
  }

  /** The prompt as the closure sees it: the `password` accumulator and the echoed output. */
  class PasswordPrompt {
    var state: PromptState
    var echoed: string

    constructor ()
      ensures state == Reading("") && echoed == ""
    {
      state := Reading("");
      echoed := "";
    }

    /** `onData(char)`. */
    method OnData(chunk: string)
      modifies this
      ensures state == Keystroke(old(state), chunk).0
      ensures echoed == old(echoed) + Keystroke(old(state), chunk).1
    {
      if !state.Reading? {
        return;
      }
      var password := state.password;
      var code := FirstCode(chunk);
      if code.None? {
        return;
      }
      var c := code.value;
      if c == 13 || c == 10 {
        state := Resolved(password);
        echoed := echoed + "\n";
      } else if c == 127 || c == 8 {
        if |password| > 0 {
          state := Reading(password[..|password| - 1]);
          echoed := echoed + "\U{8} \U{8}";
        }
      } else if c == 3 {
        state := Aborted;
      } else if c >= 32 {
        state := Reading(password + chunk);
        echoed := echoed + "*";
      }
    }
  }
}
