/**
 * The text of a run's log: what a record becomes, what a chunk holds and which
 * lines a reader gets back out of it. Characters stand for bytes.
 */
module RunLogText {
  import opened Strings

  const LOG_MAX_LINE := 8192

  predicate OneLine(s: string) {
    '\n' !in s
  }

  /** Lines as the log writes them: each closed by a newline. */
  function Text(lines: seq<string>): string {
    if lines == [] then "" else lines[0] + "\n" + Text(lines[1..])
  }

  function TrimNewlines(s: string): string {
    if s != "" && s[|s| - 1] == '\n' then TrimNewlines(s[..|s| - 1]) else s
  }

  function NonEmpty(lines: seq<string>): seq<string> {
    if lines == [] then []
    else (if lines[0] == "" then [] else [lines[0]]) + NonEmpty(lines[1..])
  }

  /** The lines a log stream sends for one chunk. */
  function Shown(chunk: string): seq<string> {
    NonEmpty(Split(TrimNewlines(chunk), '\n'))
  }

  // ---------------------------------------------------------------------------
  // Reading back what was written
  // ---------------------------------------------------------------------------

  lemma {:induction false} FirstNewlineIs(line: string, rest: string)
    requires OneLine(line)
    ensures Index(line + "\n" + rest, '\n') == |line|
  {
    if line != "" {
      FirstNewlineIs(line[1..], rest);
      assert (line + "\n" + rest)[1..] == line[1..] + "\n" + rest;
    }
  }

  lemma SplitHead(line: string, rest: string)
    requires OneLine(line)
    ensures Split(line + "\n" + rest, '\n') == [line] + Split(rest, '\n')
  {
    FirstNewlineIs(line, rest);
    var s := line + "\n" + rest;
    assert s[..|line|] == line && s[|line| + 1..] == rest;
  }

  lemma {:induction false} SplitNewlineAtEnd(s: string)
    ensures Split(s + "\n", '\n') == Split(s, '\n') + [""]
    decreases |s|
  {
    var i := Index(s, '\n');
    if i == |s| {
      assert s[..i] == s;
      SplitHead(s, "");
      assert s + "\n" + "" == s + "\n";
    } else {
      assert s == s[..i] + "\n" + s[i + 1..];
      assert s + "\n" == s[..i] + "\n" + (s[i + 1..] + "\n");
      SplitHead(s[..i], s[i + 1..] + "\n");
      SplitNewlineAtEnd(s[i + 1..]);
    }
  }

  lemma {:induction false} NonEmptyAppend(a: seq<string>, b: seq<string>)
    ensures NonEmpty(a + b) == NonEmpty(a) + NonEmpty(b)
  {
    if a == [] {
      assert a + b == b;
    } else {
      NonEmptyAppend(a[1..], b);
      NonEmptyStep(a + b);
      NonEmptyStep(a);
      assert (a + b)[1..] == a[1..] + b && (a + b)[0] == a[0];
      hide NonEmpty;
      Associate(if a[0] == "" then [] else [a[0]], NonEmpty(a[1..]), NonEmpty(b));
    }
  }

  lemma NonEmptyStep(lines: seq<string>)
    requires lines != []
    ensures NonEmpty(lines) == (if lines[0] == "" then [] else [lines[0]]) + NonEmpty(lines[1..])
  {
  }

  lemma {:induction false} TrimmingLosesNoLine(s: string)
    ensures Shown(s) == NonEmpty(Split(s, '\n'))
  {
    if s != "" && s[|s| - 1] == '\n' {
      var t := s[..|s| - 1];
      TrimmingLosesNoLine(t);
      assert s == t + "\n";
      SplitNewlineAtEnd(t);
      NonEmptyAppend(Split(t, '\n'), [""]);
    }
  }

  lemma {:induction false} SplitText(lines: seq<string>)
    requires forall k :: 0 <= k < |lines| ==> OneLine(lines[k])
    ensures NonEmpty(Split(Text(lines), '\n')) == NonEmpty(lines)
  {
    if lines != [] {
      SplitHead(lines[0], Text(lines[1..]));
      SplitText(lines[1..]);
    }
  }

  /** Joining lines into a chunk and splitting it for a reader returns every non-empty line, once and in order. */
  lemma ShownText(lines: seq<string>)
    requires forall k :: 0 <= k < |lines| ==> OneLine(lines[k])
    ensures Shown(Text(lines)) == NonEmpty(lines)
  {
    TrimmingLosesNoLine(Text(lines));
    SplitText(lines);
  }

  lemma {:induction false} TextAppend(a: seq<string>, b: seq<string>)
    ensures Text(a + b) == Text(a) + Text(b)
  {
    if a == [] {
      assert a + b == b;
    } else {
      TextAppend(a[1..], b);
      assert (a + b)[1..] == a[1..] + b;
    }
  }

  // ---------------------------------------------------------------------------
  // From a record to its line
  // ---------------------------------------------------------------------------

  function MapChars(s: string, f: char -> string): string {
    if s == "" then "" else f(s[0]) + MapChars(s[1..], f)
  }

  function DropReturn(c: char): string {
    if c == '\r' then "" else [c]
  }

  function SpaceForNewline(c: char): string {
    if c == '\n' then " " else [c]
  }

  function SpaceForControl(c: char): string {
    if c == 0x1b as char then "" else if c < ' ' && c != '\t' then " " else [c]
  }

  function Sanitize(s: string): string {
    MapChars(MapChars(MapChars(s, DropReturn), SpaceForNewline), SpaceForControl)
  }

  /** No control character but a tab. */
  predicate Clean(s: string) {
    forall c :: c in s ==> c >= ' ' || c == '\t'
  }

  lemma {:induction false} MapCharsClean(s: string)
    ensures Clean(MapChars(s, SpaceForControl))
  {
    if s != "" {
      MapCharsClean(s[1..]);
    }
  }

  lemma {:induction false} MapCharsKeeps(s: string, f: char -> string)
    requires forall c :: c in s ==> f(c) == [c]
    ensures MapChars(s, f) == s
  {
    if s != "" {
      MapCharsKeeps(s[1..], f);
      assert s == [s[0]] + s[1..];
    }
  }

  lemma CleanIsKept(s: string)
    requires Clean(s)
    ensures Sanitize(s) == s
  {
    MapCharsKeeps(s, DropReturn);
    MapCharsKeeps(s, SpaceForNewline);
    MapCharsKeeps(s, SpaceForControl);
  }

  /** Sanitising changes a text exactly when it has a control character other than a tab; twice is once. */
  lemma SanitizeFixesCleanText(s: string)
    ensures Sanitize(s) == s <==> Clean(s)
    ensures Sanitize(Sanitize(s)) == Sanitize(s)
    ensures Clean(Sanitize(s))
  {
    MapCharsClean(MapChars(MapChars(s, DropReturn), SpaceForNewline));
    CleanIsKept(Sanitize(s));
    if Clean(s) {
      CleanIsKept(s);
    }
  }

  datatype Attr = Attr(key: string, value: string)

  function LevelLabel(level: int): string {
    if level >= 8 then "ERROR" else if level >= 4 then "WARN " else if level >= 0 then "INFO " else "DEBUG"
  }

  function AttrsText(attrs: seq<Attr>): string {
    if attrs == [] then ""
    else " " + Sanitize(attrs[0].key) + "=" + Sanitize(attrs[0].value) + AttrsText(attrs[1..])
  }

  /** What the handler passes to the log for one record; `clock` is the record's time of day. */
  function Handled(clock: string, level: int, message: string, attrs: seq<Attr>): string {
    var text := clock + " " + LevelLabel(level) + " " + Sanitize(message) + AttrsText(attrs) + "\n";
    if |text| > LOG_MAX_LINE then text[..LOG_MAX_LINE] + " [truncated]\n" else text
  }

  lemma {:induction false} AttrsTextClean(attrs: seq<Attr>)
    ensures Clean(AttrsText(attrs))
  {
    if attrs != [] {
      SanitizeFixesCleanText(attrs[0].key);
      SanitizeFixesCleanText(attrs[0].value);
      AttrsTextClean(attrs[1..]);
    }
  }

  lemma CleanJoin(a: string, b: string)
    requires Clean(a) && Clean(b)
    ensures Clean(a + b)
  {
  }

  lemma CleanPrefix(s: string, n: nat)
    requires Clean(s) && n <= |s|
    ensures Clean(s[..n])
  {
    assert forall c :: c in s[..n] ==> c in s;
  }

  lemma CleanIsOneLine(s: string)
    requires Clean(s)
    ensures OneLine(s)
  {
  }

  /** Whatever a record holds, it becomes one clean, non-empty, bounded line: nothing in it can forge a second one. */
  lemma HandledIsOneLine(clock: string, level: int, message: string, attrs: seq<Attr>) returns (line: string)
    requires Clean(clock)
    ensures Handled(clock, level, message, attrs) == line + "\n"
    ensures 0 < |line| <= LOG_MAX_LINE + 12 && Clean(line) && OneLine(line)
  {
    hide Sanitize, AttrsText, LevelLabel, MapChars, Clean, OneLine;
    var body := clock + " " + LevelLabel(level) + " " + Sanitize(message) + AttrsText(attrs);
    BodyIsClean(clock, level, message, attrs);
    line := if |body| + 1 > LOG_MAX_LINE then body[..LOG_MAX_LINE] + " [truncated]" else body;
    if |body| + 1 > LOG_MAX_LINE {
      assert (body + "\n")[..LOG_MAX_LINE] == body[..LOG_MAX_LINE];
      CleanPrefix(body, LOG_MAX_LINE);
      MarkIsClean();
      CleanJoin(body[..LOG_MAX_LINE], " [truncated]");
    }
    CleanIsOneLine(line);
  }

  lemma MarkIsClean()
    ensures Clean(" [truncated]")
  {
  }

  lemma BodyIsClean(clock: string, level: int, message: string, attrs: seq<Attr>)
    requires Clean(clock)
    ensures Clean(clock + " " + LevelLabel(level) + " " + Sanitize(message) + AttrsText(attrs))
  {
    SanitizeFixesCleanText(message);
    AttrsTextClean(attrs);
    assert Clean(" ") && Clean(LevelLabel(level));
    hide Sanitize, AttrsText, LevelLabel, MapChars, Clean;
    CleanJoin(clock, " ");
    CleanJoin(clock + " ", LevelLabel(level));
    CleanJoin(clock + " " + LevelLabel(level), " ");
    CleanJoin(clock + " " + LevelLabel(level) + " ", Sanitize(message));
    CleanJoin(clock + " " + LevelLabel(level) + " " + Sanitize(message), AttrsText(attrs));
  }
}
