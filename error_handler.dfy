/**
 * The uncaught-error handler: in development a page with the message, the
 * location, a window of source lines around the failing one and the stack
 * trace; elsewhere a log entry and a generic message. Output, the response
 * code, the log file and the clock are left to the caller: the reaction is
 * returned as a value, `htmlspecialchars` and `nl2br` are uninterpreted
 * functions, and the timestamp is an input.
 */
module Errors {
  import opened Wrappers
  import opened Php

  /** What the handler reads from the caught throwable. */
  datatype Report = Report(message: string, file: string, line: int, trace: string)

  /** The two ways `handle` reacts. */
  datatype Reaction =
    | ErrorPage(status: nat, message: string, file: string, line: int, snippet: string, trace: string)
    | Logged(entry: string, body: string)

  const Development := "development"
  const GenericMessage := "An error occurred, please try again later."
  const Unavailable := "Code unavailable."
  const Highlight := "style='color: #ff5c5c; font-weight: bold;'"

  /** One line of the snippet: its 1-based number, whether it is the error line, and its text. */
  datatype SnippetRow = SnippetRow(number: int, highlighted: bool, text: string)

  /** `max(0, $errorLine - 6)`: the 0-based index of the first line shown. */
  function WindowStart(errorLine: int): nat
  {
    if errorLine - 6 > 0 then errorLine - 6 else 0
  }

  /** `min(count($lines), $errorLine + 5)`: the 0-based index just past the last line shown. */
  function WindowEnd(count: nat, errorLine: int): int
  {
    if count < errorLine + 5 then count else errorLine + 5
  }

  /** The lines the snippet shows, in order. */
  function Rows(lines: seq<string>, errorLine: int): (rows: seq<SnippetRow>)
    ensures |rows| <= 11
    ensures WindowStart(errorLine) >= WindowEnd(|lines|, errorLine) ==> rows == []
    ensures WindowStart(errorLine) < WindowEnd(|lines|, errorLine) ==>
      |rows| == WindowEnd(|lines|, errorLine) - WindowStart(errorLine)
    ensures forall k | 0 <= k < |rows| ::
      && rows[k].number == WindowStart(errorLine) + k + 1
      && errorLine - 5 <= rows[k].number < errorLine + 6
      && 1 <= rows[k].number <= |lines|
      && rows[k].text == lines[rows[k].number - 1]
      && (rows[k].highlighted <==> rows[k].number == errorLine)
  {
    var start := WindowStart(errorLine);
    var end := WindowEnd(|lines|, errorLine);
    if start >= end then []
    else (seq(end - start, k requires 0 <= k < end - start =>
      SnippetRow(start + k + 1, start + k + 1 == errorLine, lines[start + k])))
  }

  /** At most one line of a snippet is highlighted. */
  lemma OneHighlight(lines: seq<string>, errorLine: int, j: nat, k: nat)
    requires j < |Rows(lines, errorLine)| && k < |Rows(lines, errorLine)|
    requires Rows(lines, errorLine)[j].highlighted && Rows(lines, errorLine)[k].highlighted
    ensures j == k
  {
  }

  /** A line inside the file always appears in its own snippet, highlighted. */
  lemma ErrorLineShown(lines: seq<string>, errorLine: int)
    requires 1 <= errorLine <= |lines|
    ensures exists k | 0 <= k < |Rows(lines, errorLine)| ::
      Rows(lines, errorLine)[k].highlighted && Rows(lines, errorLine)[k].text == lines[errorLine - 1]
  {
    var k := errorLine - 1 - WindowStart(errorLine);
    assert 0 <= k < |Rows(lines, errorLine)|;
    assert Rows(lines, errorLine)[k].number == errorLine;
  }

  /** The `<span>` of one numbered line, with its style attribute and its escaped text. */
  function Span(number: int, highlight: string, text: string): string
  {
    "<span " + highlight + ">" + IntToString(number) + ": " + text + "</span>\n"
  }

  function RenderRow(row: SnippetRow, escape: string -> string): string
  {
    Span(row.number, if row.highlighted then Highlight else "", escape(row.text))
  }

  /** The spans of `rows`, appended in order. */
  function RenderRows(rows: seq<SnippetRow>, escape: string -> string): string
  {
    if rows == [] then "" else RenderRows(rows[..|rows| - 1], escape) + RenderRow(rows[|rows| - 1], escape)
  }

  /** The snippet for a file given by its lines, or None when it does not exist. */
  function Snippet(source: Option<seq<string>>, errorLine: int, escape: string -> string): string
  {
    match source
    case None => Unavailable
    case Some(lines) => "<pre>" + RenderRows(Rows(lines, errorLine), escape) + "</pre>"
  }

  /** A missing file gives the fixed notice; otherwise the snippet is wrapped in `<pre>`. */
  lemma SnippetShape(source: Option<seq<string>>, errorLine: int, escape: string -> string)
    ensures source.None? ==> Snippet(source, errorLine, escape) == Unavailable
    ensures source.Some? ==> var s := Snippet(source, errorLine, escape);
      |s| >= 11 && StartsWith(s, "<pre>") && s[|s| - 6..] == "</pre>"
  {
  }

  /** The spans of 0-based lines `lo` up to (not including) `hi`, appended in order. */
  function Window(lines: seq<string>, errorLine: int, lo: nat, hi: int, escape: string -> string): string
    requires hi <= lo || hi <= |lines|
    decreases hi - lo
  {
    if hi <= lo then ""
    else
      var highlight := if hi == errorLine then Highlight else "";
      Window(lines, errorLine, lo, hi - 1, escape) + Span(hi, highlight, escape(lines[hi - 1]))
  }

  /** The first `n` lines of the window render as the first `n` snippet rows. */
  lemma {:induction false} WindowRendered(lines: seq<string>, errorLine: int, n: nat, escape: string -> string)
    requires n <= |Rows(lines, errorLine)|
    ensures Window(lines, errorLine, WindowStart(errorLine), WindowStart(errorLine) + n, escape)
      == RenderRows(Rows(lines, errorLine)[..n], escape)
  {
    var rows := Rows(lines, errorLine);
    var start := WindowStart(errorLine);
    if n > 0 {
      WindowRendered(lines, errorLine, n - 1, escape);
      assert rows[n - 1] == SnippetRow(start + n, start + n == errorLine, lines[start + n - 1]);
      assert rows[..n][..n - 1] == rows[..n - 1];
    }
  }

  /** The whole window, wrapped, is the snippet. */
  lemma SnippetDone(lines: seq<string>, errorLine: int, end: int, escape: string -> string)
    requires end == WindowEnd(|lines|, errorLine)
    ensures var start := WindowStart(errorLine);
      "<pre>" + (if start < end then Window(lines, errorLine, start, end, escape) else "") + "</pre>"
        == Snippet(Some(lines), errorLine, escape)
  {
    var rows := Rows(lines, errorLine);
    var start := WindowStart(errorLine);
    var w := if start < end then Window(lines, errorLine, start, end, escape) else "";
    if start < end {
      assert start + |rows| == end;
      WindowRendered(lines, errorLine, |rows|, escape);
      assert rows[..|rows|] == rows;
      assert w == RenderRows(rows, escape);
    } else {
      assert rows == [];
      assert w == RenderRows(rows, escape);
    }
    assert Snippet(Some(lines), errorLine, escape) == "<pre>" + RenderRows(rows, escape) + "</pre>";
  }

  /** `getCodeSnippet`: the window's lines appended one by one, then wrapped. */
  method CodeSnippet(source: Option<seq<string>>, errorLine: int, escape: string -> string) returns (s: string)
    ensures s == Snippet(source, errorLine, escape)
  {
    if source.None? {
      return Unavailable;
    }
    var lines := source.value;
    var start := WindowStart(errorLine);
    var end := WindowEnd(|lines|, errorLine);
    var snippet := "";
    var i := start;
    while i < end
      invariant start <= i && (i <= end || i == start)
      invariant snippet == Window(lines, errorLine, start, i, escape)
    {
      var lineNumber := i + 1;
      var highlight := if lineNumber == errorLine then Highlight else "";
      snippet := snippet + Span(lineNumber, highlight, escape(lines[i]));
      i := i + 1;
    }
    SnippetDone(lines, errorLine, end, escape);
    s := "<pre>" + snippet + "</pre>";
  }

  /** The log entry `logError` appends, stamped with `timestamp`. */
  function LogEntry(timestamp: string, report: Report): string
  {
    "[" + timestamp + "] Error: " + report.message + "\n"
      + "File: " + report.file + " on line " + IntToString(report.line) + "\n"
      + "Stack trace: " + report.trace + "\n\n"
  }

  /**
   * `handle`, with `env` the `APP_ENV` setting and `source` the lines of the
   * file the report names (None when it does not exist).
   */
  function Handle(env: Value, report: Report, source: Option<seq<string>>, escape: string -> string,
                  lineBreaks: string -> string, timestamp: string): (reaction: Reaction)
    ensures reaction.ErrorPage? <==> env == Str(Development)
    ensures reaction.ErrorPage? ==>
      && reaction.status == 500
      && reaction.message == escape(report.message)
      && reaction.file == report.file && reaction.line == report.line
      && reaction.snippet == Snippet(source, report.line, escape)
      && reaction.trace == lineBreaks(escape(report.trace))
    ensures reaction.Logged? ==> reaction.body == GenericMessage && reaction.entry == LogEntry(timestamp, report)
  {
    if env == Str(Development) then
      ErrorPage(500, escape(report.message), report.file, report.line,
        Snippet(source, report.line, escape), lineBreaks(escape(report.trace)))
    else
      Logged(LogEntry(timestamp, report), GenericMessage)
  }
}
