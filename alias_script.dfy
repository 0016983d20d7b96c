/**
 * How `Aliases.each` reads one alias script: the text is cut into lines as
 * File.readlines does, the shebang and metadata lines are dropped, comment
 * and blank lines are skipped, and the first remaining line is normalised
 * into the command that `brew alias` displays.
 *
 * Ruby's `^` and `$` are line anchors, so the two regular expressions of the
 * reader are modelled with that meaning on arbitrary text; the lemmas
 * StripSplatOnLine and BlankLineOnSingleLine show what they amount to on the
 * lines File.readlines produces.
 */
module AliasScript {
  import opened Wrappers

  /** The prefix that marks an internal `brew` subcommand. */
  const BrewPrefix: string := "brew "

  /** The argument splat that a script line ends with. */
  const Splat: string := " $*"

  predicate StartsWith(s: string, p: string) {
    |p| <= |s| && s[..|p|] == p
  }

  predicate EndsWith(s: string, p: string) {
    |p| <= |s| && s[|s| - |p|..] == p
  }

  /** A line as File.readlines yields it: a newline can only be its last character. */
  predicate SingleLine(l: string) {
    forall i :: 0 <= i < |l| - 1 ==> l[i] != '\n'
  }

  function Concat(ls: seq<string>): string {
    if ls == [] then [] else ls[0] + Concat(ls[1..])
  }

  // ---------------------------------------------------------------------------
  // File.readlines
  // ---------------------------------------------------------------------------

  /** Length of the first line of `s`, its terminating newline included. */
  function FirstLineLength(s: string): (n: nat)
    requires s != []
    ensures 0 < n <= |s|
    ensures forall i :: 0 <= i < n - 1 ==> s[i] != '\n'
    ensures n < |s| ==> s[n - 1] == '\n'
  {
    if s[0] == '\n' || |s| == 1 then 1 else 1 + FirstLineLength(s[1..])
  }

  /** File.readlines: the text cut after every newline. */
  function ReadLines(s: string): seq<string>
    decreases |s|
  {
    if s == [] then []
    else
      var n := FirstLineLength(s);
      [s[..n]] + ReadLines(s[n..])
  }

  /** One step of File.readlines: the first line, then the lines of the rest. */
  lemma ReadLinesStep(s: string)
    requires s != []
    ensures ReadLines(s) == [s[..FirstLineLength(s)]] + ReadLines(s[FirstLineLength(s)..])
  {
  }

  /** Joining the lines of File.readlines gives the text back. */
  lemma {:induction false} ReadLinesConcat(s: string)
    ensures Concat(ReadLines(s)) == s
    decreases |s|
  {
    if s != [] {
      var n := FirstLineLength(s);
      var rest := ReadLines(s[n..]);
      ReadLinesStep(s);
      ReadLinesConcat(s[n..]);
      assert ([s[..n]] + rest)[1..] == rest;
      assert s[..n] + s[n..] == s;
    }
  }

  /**
   * No line of File.readlines is empty, a newline only ever ends a line, and
   * every line but the last ends with one.
   */
  lemma {:induction false} ReadLinesShape(s: string)
    ensures forall i :: 0 <= i < |ReadLines(s)| ==> ReadLines(s)[i] != [] && SingleLine(ReadLines(s)[i])
    ensures forall i :: 0 <= i < |ReadLines(s)| - 1 ==> ReadLines(s)[i][|ReadLines(s)[i]| - 1] == '\n'
    decreases |s|
  {
    if s != [] {
      var n := FirstLineLength(s);
      var rest := ReadLines(s[n..]);
      ReadLinesStep(s);
      ReadLinesShape(s[n..]);
      var ls := [s[..n]] + rest;
      assert forall i :: 1 <= i < |ls| ==> ls[i] == rest[i - 1];
      assert SingleLine(s[..n]);
      if n == |s| {
        assert s[n..] == [];
        assert rest == [];
      }
    }
  }

  /** A text of one line reads as that line. */
  lemma ReadLinesOneLine(l: string)
    requires l != [] && SingleLine(l)
    ensures ReadLines(l) == [l]
  {
    var n := FirstLineLength(l);
    assert n == |l|;
    ReadLinesStep(l);
    assert l[..n] == l;
    assert l[n..] == [];
  }

  /** The first line of a text is found before the end of any prefix that ends a line. */
  lemma {:induction false} FirstLineLengthAppend(a: string, b: string)
    requires a != [] && a[|a| - 1] == '\n'
    ensures FirstLineLength(a + b) == FirstLineLength(a)
    decreases |a|
  {
    if a[0] == '\n' || |a| == 1 {
    } else {
      assert (a + b)[1..] == a[1..] + b;
      FirstLineLengthAppend(a[1..], b);
    }
  }

  /** The first line of a text that begins with a whole line is that line. */
  lemma ReadLinesAppendStep(a: string, b: string)
    requires a != [] && a[|a| - 1] == '\n'
    ensures var n := FirstLineLength(a);
            ReadLines(a + b) == [a[..n]] + ReadLines(a[n..] + b)
  {
    var ab := a + b;
    var n := FirstLineLength(a);
    FirstLineLengthAppend(a, b);
    ReadLinesStep(ab);
    assert ab[..n] == a[..n];
    assert ab[n..] == a[n..] + b;
  }

  /** Reading a text whose first part ends a line reads the two parts separately. */
  lemma {:induction false} ReadLinesAppend(a: string, b: string)
    requires a == [] || a[|a| - 1] == '\n'
    ensures ReadLines(a + b) == ReadLines(a) + ReadLines(b)
    decreases |a|
  {
    if a == [] {
      assert a + b == b;
    } else {
      var n := FirstLineLength(a);
      var rest := a[n..];
      assert rest == [] || rest[|rest| - 1] == '\n' by {
        if rest != [] {
          assert rest[|rest| - 1] == a[|a| - 1];
        }
      }
      var first, restLines, linesB := a[..n], ReadLines(rest), ReadLines(b);
      assert ReadLines(a + b) == [first] + (restLines + linesB) by {
        ReadLinesAppendStep(a, b);
        ReadLinesAppend(rest, b);
      }
      assert ReadLines(a) == [first] + restLines by {
        ReadLinesStep(a);
      }
      assert [first] + (restLines + linesB) == ([first] + restLines) + linesB;
    }
  }

  // ---------------------------------------------------------------------------
  // The per-line rules
  // ---------------------------------------------------------------------------

  /** String#chomp with the default separator: drops one trailing "\r\n", "\n" or "\r". */
  function Chomp(s: string): (r: string)
    ensures |s| - 2 <= |r| <= |s| && s[..|r|] == r
    ensures r == s <==> !(EndsWith(s, "\n") || EndsWith(s, "\r"))
    ensures SingleLine(s) ==> forall i :: 0 <= i < |r| ==> r[i] != '\n'
  {
    if EndsWith(s, "\r\n") then s[..|s| - 2]
    else if EndsWith(s, "\n") || EndsWith(s, "\r") then s[..|s| - 1]
    else s
  }

  /**
   * What chomp removes: exactly one trailing "\r\n" when there is one, and
   * otherwise exactly one trailing "\n" or "\r".
   */
  lemma ChompRemovesOneEnding(s: string)
    ensures EndsWith(s, "\r\n") ==> Chomp(s) + "\r\n" == s
    ensures !EndsWith(s, "\r\n") && (EndsWith(s, "\n") || EndsWith(s, "\r")) ==> Chomp(s) + [s[|s| - 1]] == s
  {
    if EndsWith(s, "\r\n") {
      assert s[..|s| - 2] + s[|s| - 2..] == s;
    } else if EndsWith(s, "\n") || EndsWith(s, "\r") {
      assert s[..|s| - 1] + [s[|s| - 1]] == s;
    }
  }

  /** A line chomps back to itself after "\r\n". */
  lemma ChompCrLf(line: string)
    ensures Chomp(line + "\r\n") == line
  {
    var t := line + "\r\n";
    assert t[|t| - 2..] == "\r\n";
    assert t[..|line|] == line;
  }

  /** A line chomps back to itself after a lone "\r". */
  lemma ChompCr(line: string)
    ensures Chomp(line + "\r") == line
  {
    var t := line + "\r";
    assert t[|t| - 1] == '\r';
    assert !EndsWith(t, "\r\n");
    assert t[|t| - 1..] == "\r";
    assert t[..|line|] == line;
  }

  /** A line that does not end in "\r" chomps back to itself after "\n". */
  lemma ChompLf(line: string)
    requires !EndsWith(line, "\r")
    ensures Chomp(line + "\n") == line
  {
    var t := line + "\n";
    assert t[|t| - 1..] == "\n";
    assert !EndsWith(t, "\r\n") by {
      if |line| > 0 {
        assert t[|t| - 2] == line[|line| - 1];
      }
    }
    assert t[..|line|] == line;
  }

  /** Whether / \$\*$/ matches at `k`: the splat, then the end of the text or a newline. */
  predicate SplatAt(s: string, k: nat) {
    k + |Splat| <= |s| && s[k..k + |Splat|] == Splat && (k + |Splat| == |s| || s[k + |Splat|] == '\n')
  }

  /** The leftmost match of / \$\*$/ at or after `i`, as String#sub! finds it. */
  function SplatMatch(s: string, i: nat): (r: Option<nat>)
    requires i <= |s|
    ensures r.Some? ==> i <= r.value && SplatAt(s, r.value)
    ensures r.Some? ==> forall k :: i <= k < r.value ==> !SplatAt(s, k)
    ensures r.None? ==> forall k :: i <= k <= |s| ==> !SplatAt(s, k)
    decreases |s| - i
  {
    if i + |Splat| > |s| then None
    else if SplatAt(s, i) then Some(i)
    else SplatMatch(s, i + 1)
  }

  /** `cmd.sub!(/ \$\*$/, "")`: the first match, if any, is cut out. */
  function StripSplat(s: string): string {
    match SplatMatch(s, 0)
    case None => s
    case Some(k) => s[..k] + s[k + |Splat|..]
  }

  /**
   * `if cmd.start_with? "brew " then cmd.sub!(/^brew /, "") else cmd = "!#{cmd}"`.
   * The leftmost match of `^brew ` in a text that starts with it is at 0, so
   * the prefix itself is what goes.
   */
  function Dispatch(cmd: string): (r: string)
    ensures StartsWith(cmd, BrewPrefix) <==> BrewPrefix + r == cmd
    ensures !StartsWith(cmd, BrewPrefix) <==> r == "!" + cmd
  {
    if StartsWith(cmd, BrewPrefix) then cmd[|BrewPrefix|..] else "!" + cmd
  }

  /** The command displayed for a script's first content line. */
  function Normalize(line: string): string {
    Dispatch(StripSplat(Chomp(line)))
  }

  /** Ruby's `\s`: space, tab, newline, vertical tab, form feed, carriage return. */
  predicate IsSpace(c: char) {
    c == ' ' || c == '\t' || c == '\n' || c == '\r' || c as int == 11 || c as int == 12
  }

  /** Whether `\s*$` matches from `p`: spaces up to the end of the text or a newline. */
  predicate BlankFrom(l: string, p: nat)
    requires p <= |l|
    decreases |l| - p
  {
    p == |l| || l[p] == '\n' || (IsSpace(l[p]) && BlankFrom(l, p + 1))
  }

  /** Where `^` matches: the start of the text, or just after a newline that is not the last character. */
  predicate LineStart(l: string, p: nat) {
    p == 0 || (0 < p < |l| && l[p - 1] == '\n')
  }

  /** `line =~ /^\s*$/`. */
  predicate IsBlankLine(l: string) {
    exists p | 0 <= p <= |l| :: LineStart(l, p) && BlankFrom(l, p)
  }

  /** `line.start_with?("#")`. */
  predicate IsComment(l: string) {
    StartsWith(l, "#")
  }

  /** A line that `lines.reject!` keeps. */
  predicate IsContent(l: string) {
    !IsComment(l) && !IsBlankLine(l)
  }

  /**
   * `lines.reject! { comment or blank }; lines.first`: the first content line,
   * None when every line is a comment or blank.
   */
  function FirstContent(lines: seq<string>): (r: Option<string>)
    ensures r.None? <==> forall i :: 0 <= i < |lines| ==> !IsContent(lines[i])
    ensures r.Some? ==> exists k :: 0 <= k < |lines| && lines[k] == r.value && IsContent(r.value)
                                    && forall j :: 0 <= j < k ==> !IsContent(lines[j])
  {
    if lines == [] then None
    else if IsContent(lines[0]) then Some(lines[0])
    else
      var r := FirstContent(lines[1..]);
      assert forall i :: 1 <= i < |lines| ==> lines[i] == lines[1..][i - 1];
      if r.Some? then
        var k :| 0 <= k < |lines[1..]| && lines[1..][k] == r.value && IsContent(r.value)
                 && forall j :: 0 <= j < k ==> !IsContent(lines[1..][j]);
        assert lines[k + 1] == r.value;
        r
      else r
  }

  /**
   * Lines 38 and 42-51 of `each` on the lines of one script: the first two
   * lines are dropped, and the first content line among the rest is
   * normalised. None is the case where `T.must(lines.first)` raises.
   */
  function ResolveLines(lines: seq<string>): Option<string> {
    var body := if |lines| <= 2 then [] else lines[2..];
    match FirstContent(body)
    case None => None
    case Some(l) => Some(Normalize(l))
  }

  /** The command a script text resolves to. */
  function Resolve(content: string): Option<string> {
    ResolveLines(ReadLines(content))
  }

  // ---------------------------------------------------------------------------
  // Properties of the reader
  // ---------------------------------------------------------------------------

  /** On a text without newlines, the splat is removed exactly when it ends the text, and nothing else changes. */
  lemma StripSplatOnLine(s: string)
    requires forall i :: 0 <= i < |s| ==> s[i] != '\n'
    ensures EndsWith(s, Splat) ==> StripSplat(s) + Splat == s
    ensures !EndsWith(s, Splat) ==> StripSplat(s) == s
  {
    var m := SplatMatch(s, 0);
    if m.Some? {
      var k := m.value;
      assert k + |Splat| == |s|;
      assert s[k..] == Splat;
      assert s[..k] + s[k..] == s;
    } else if EndsWith(s, Splat) {
      assert SplatAt(s, |s| - |Splat|);
    }
  }

  lemma {:induction false} BlankFromOnSingleLine(l: string, p: nat)
    requires SingleLine(l) && p <= |l|
    ensures BlankFrom(l, p) <==> forall i :: p <= i < |l| ==> IsSpace(l[i])
    decreases |l| - p
  {
    if p < |l| && l[p] != '\n' {
      BlankFromOnSingleLine(l, p + 1);
    }
  }

  /** On a line of File.readlines, `/^\s*$/` matches exactly the lines made only of whitespace. */
  lemma BlankLineOnSingleLine(l: string)
    requires SingleLine(l)
    ensures IsBlankLine(l) <==> forall i :: 0 <= i < |l| ==> IsSpace(l[i])
  {
    BlankFromOnSingleLine(l, 0);
    if IsBlankLine(l) {
      var p :| 0 <= p <= |l| && LineStart(l, p) && BlankFrom(l, p);
      assert p == 0;
    } else {
      assert !(LineStart(l, 0) && BlankFrom(l, 0));
    }
  }

  /** The first two lines never take part: scripts that differ only there resolve alike. */
  lemma HeaderIgnored(header: seq<string>, other: seq<string>, body: seq<string>)
    requires |header| == 2 && |other| == 2
    ensures ResolveLines(header + body) == ResolveLines(other + body)
  {
    assert (header + body)[2..] == body;
    assert (other + body)[2..] == body;
  }

  /**
   * A script made of a shebang line, a metadata line and a body resolves as
   * the body alone: whatever the two header lines say, the command is the
   * normalised first content line of the body.
   */
  lemma {:induction false} ScriptResolvesFromBody(shebang: string, meta: string, body: string)
    requires shebang != [] && SingleLine(shebang) && shebang[|shebang| - 1] == '\n'
    requires meta != [] && SingleLine(meta) && meta[|meta| - 1] == '\n'
    ensures Resolve(shebang + meta + body)
            == match FirstContent(ReadLines(body)) case None => None case Some(l) => Some(Normalize(l))
  {
    assert (shebang + meta)[|shebang + meta| - 1] == '\n';
    ReadLinesAppend(shebang + meta, body);
    ReadLinesAppend(shebang, meta);
    ReadLinesOneLine(shebang);
    ReadLinesOneLine(meta);
    assert (ReadLines(shebang + meta) + ReadLines(body))[2..] == ReadLines(body);
  }

  /** A command line read back from a script: not a comment, not blank, and chomped to itself. */
  lemma CommandLineRead(line: string)
    requires forall i :: 0 <= i < |line| ==> line[i] != '\n'
    requires !EndsWith(line, "\r")
    requires !StartsWith(line, "#") && exists i :: 0 <= i < |line| && !IsSpace(line[i])
    ensures IsContent(line + "\n") && SingleLine(line + "\n")
    ensures Normalize(line + "\n") == Dispatch(StripSplat(line))
  {
    var l := line + "\n";
    assert SingleLine(l);
    BlankLineOnSingleLine(l);
    var w :| 0 <= w < |line| && !IsSpace(line[w]);
    assert !IsSpace(l[w]);
    assert l[..|"#"|] == line[..|"#"|];
    assert l[..|l| - 1] == line;
    assert l[|l| - 2] == line[|line| - 1];
    assert Chomp(l) == line;
  }

  /**
   * A script whose body starts with a command line (no newline, not a
   * comment, not only whitespace) resolves to that line with its splat
   * stripped and its `brew ` prefix removed or a `!` added; whatever follows
   * the command line is ignored.
   */
  lemma {:induction false} ScriptWithCommandLine(shebang: string, meta: string, line: string, rest: string)
    requires shebang != [] && SingleLine(shebang) && shebang[|shebang| - 1] == '\n'
    requires meta != [] && SingleLine(meta) && meta[|meta| - 1] == '\n'
    requires forall i :: 0 <= i < |line| ==> line[i] != '\n'
    requires !EndsWith(line, "\r")
    requires !StartsWith(line, "#") && exists i :: 0 <= i < |line| && !IsSpace(line[i])
    ensures Resolve(shebang + meta + (line + "\n" + rest)) == Some(Dispatch(StripSplat(line)))
  {
    var l := line + "\n";
    CommandLineRead(line);
    ScriptResolvesFromBody(shebang, meta, l + rest);
    ReadLinesAppend(l, rest);
    ReadLinesOneLine(l);
    var body := [l] + ReadLines(rest);
    assert ReadLines(l + rest) == body;
    assert body[0] == l;
    assert FirstContent(body) == Some(l);
  }

  /** Two texts without a line break join into one without a line break. */
  lemma NoNewlineConcat(a: string, b: string)
    requires forall i :: 0 <= i < |a| ==> a[i] != '\n'
    requires forall i :: 0 <= i < |b| ==> b[i] != '\n'
    ensures forall i :: 0 <= i < |a + b| ==> (a + b)[i] != '\n'
  {
    forall i | 0 <= i < |a + b| ensures (a + b)[i] != '\n' {
      if i >= |a| {
        assert (a + b)[i] == b[i - |a|];
      }
    }
  }

  /**
   * The script line that displays as `d`: a `!` command is written bare, any
   * other as a `brew` subcommand, both followed by the splat.
   */
  function LineFor(d: string): string {
    if StartsWith(d, "!") then d[1..] + Splat else BrewPrefix + d + Splat
  }

  /**
   * Normalize undoes LineFor for every display form without a newline, except
   * `!brew ...`: a shell command that itself starts with `brew ` is read back
   * as a subcommand.
   */
  lemma NormalizeUndoesLineFor(d: string)
    requires forall i :: 0 <= i < |d| ==> d[i] != '\n'
    requires !StartsWith(d, "!" + BrewPrefix)
    ensures Normalize(LineFor(d)) == d
  {
    var line := LineFor(d);
    var cmd := if StartsWith(d, "!") then d[1..] else BrewPrefix + d;
    assert Normalize(line) == if StartsWith(cmd, BrewPrefix) then cmd[|BrewPrefix|..] else "!" + cmd by {
      LineForShape(d, cmd);
      NormalizeRules(line);
    }
    if StartsWith(d, "!") {
      BangCommandNotBrew(d);
      assert "!" + d[1..] == d;
    } else {
      assert (BrewPrefix + d)[..|BrewPrefix|] == BrewPrefix;
      assert (BrewPrefix + d)[|BrewPrefix|..] == d;
    }
  }

  /** A `!` command that does not start with `!brew ` is, without its `!`, no `brew` subcommand. */
  lemma BangCommandNotBrew(d: string)
    requires StartsWith(d, "!") && !StartsWith(d, "!" + BrewPrefix)
    ensures !StartsWith(d[1..], BrewPrefix)
  {
  }

  /** LineFor writes one line, without a line break, that ends with the splat after `cmd`. */
  lemma LineForShape(d: string, cmd: string)
    requires forall i :: 0 <= i < |d| ==> d[i] != '\n'
    requires cmd == if StartsWith(d, "!") then d[1..] else BrewPrefix + d
    ensures forall i :: 0 <= i < |LineFor(d)| ==> LineFor(d)[i] != '\n'
    ensures EndsWith(LineFor(d), Splat) && !EndsWith(LineFor(d), "\r")
    ensures LineFor(d)[..|LineFor(d)| - |Splat|] == cmd
  {
    var line := LineFor(d);
    assert line == cmd + Splat;
    if StartsWith(d, "!") {
      NoNewlineConcat(d[1..], Splat);
    } else {
      NoNewlineConcat(BrewPrefix, d);
      NoNewlineConcat(BrewPrefix + d, Splat);
    }
    assert line[|cmd|..] == Splat;
    assert line[|line| - 1] == '*';
  }

  /**
   * The three rules of the normaliser on one line of text: the line break is
   * chomped, a trailing ` $*` is cut, and then a leading `brew ` is cut or,
   * failing that, the command is marked as a shell command with `!`.
   */
  lemma NormalizeRules(line: string)
    requires forall i :: 0 <= i < |line| ==> line[i] != '\n'
    requires !EndsWith(line, "\r")
    ensures Normalize(line + "\n") == Normalize(line)
    ensures Normalize(line + "\r\n") == Normalize(line)
    ensures var cmd := if EndsWith(line, Splat) then line[..|line| - |Splat|] else line;
            (StartsWith(cmd, BrewPrefix) ==> Normalize(line) == cmd[|BrewPrefix|..])
            && (!StartsWith(cmd, BrewPrefix) ==> Normalize(line) == "!" + cmd)
  {
    ChompLf(line);
    ChompCrLf(line);
    assert Chomp(line) == line by {
      if line != [] {
        assert line[|line| - 1] != '\n';
        assert !EndsWith(line, "\n");
      }
    }
    var cmd := if EndsWith(line, Splat) then line[..|line| - |Splat|] else line;
    assert StripSplat(line) == cmd by {
      StripSplatOnLine(line);
      if EndsWith(line, Splat) {
        assert StripSplat(line) == (StripSplat(line) + Splat)[..|line| - |Splat|];
      }
    }
    if StartsWith(cmd, BrewPrefix) {
      assert (BrewPrefix + Dispatch(cmd))[|BrewPrefix|..] == Dispatch(cmd);
    }
  }
}
