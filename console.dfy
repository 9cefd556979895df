/**
 * The on-screen console (src/ui/console.cpp): a log of lines with their
 * timestamps, fed either line by line or as a character stream split on
 * '\n', and the two text columns it hands to the font writer when drawn.
 *
 * Strings are byte strings, as the font writer takes them. The clock is a
 * parameter (`now`), as are the screen size, the formatted timestamps and
 * the camera read-outs; the console's own square mesh and shader are GL
 * and left out.
 */
module ConsoleModel {
  import opened Fonts

  type Text = seq<Byte>

  /** The line terminator of the stream. */
  const Newline: Byte := 10

  predicate NoNewline(t: Text)
  {
    forall i :: 0 <= i < |t| ==> t[i] != Newline
  }

  /** A string literal as bytes (all literals used here are ASCII). */
  function Bytes(s: string): (r: Text)
    requires forall i :: 0 <= i < |s| ==> s[i] as int < 256
    ensures |r| == |s|
    ensures forall i :: 0 <= i < |r| ==> r[i] == s[i] as int
  {
    seq(|s|, i requires 0 <= i < |s| => s[i] as int)
  }

  /** The log lines completed by a stream, and the unterminated rest. */
  datatype Split = Split(lines: seq<Text>, rest: Text)

  /**
   * Feeding `s` after a buffer `pending`: each '\n' completes the pending
   * text as a line and empties it; any other byte is appended to it.
   */
  function Feed(pending: Text, s: Text): Split
  {
    if s == [] then Split([], pending)
    else
      var before := Feed(pending, s[..|s| - 1]);
      var c := s[|s| - 1];
      if c == Newline then Split(before.lines + [before.rest], [])
      else Split(before.lines, before.rest + [c])
  }

  /** Lines written back out, each followed by '\n'. */
  function Join(lines: seq<Text>): Text
  {
    if lines == [] then [] else Join(lines[..|lines| - 1]) + lines[|lines| - 1] + [Newline]
  }

  function CountNewlines(s: Text): nat
  {
    if s == [] then 0 else CountNewlines(s[..|s| - 1]) + (if s[|s| - 1] == Newline then 1 else 0)
  }

  lemma JoinAppend(lines: seq<Text>, line: Text)
    ensures Join(lines + [line]) == Join(lines) + line + [Newline]
  {
    assert (lines + [line])[..|lines|] == lines;
  }

  /** Nothing is lost or reordered: the lines, re-terminated, then the rest, spell pending + s. */
  lemma {:induction false} FeedRoundTrip(pending: Text, s: Text)
    ensures Join(Feed(pending, s).lines) + Feed(pending, s).rest == pending + s
  {
    if s != [] {
      var init := s[..|s| - 1];
      var c := s[|s| - 1];
      FeedRoundTrip(pending, init);
      var before := Feed(pending, init);
      var after := Feed(pending, s);
      assert pending + s == (pending + init) + [c] by {
        assert s == init + [c];
      }
      if c == Newline {
        assert after.lines == before.lines + [before.rest] && after.rest == [];
        JoinAppend(before.lines, before.rest);
      } else {
        assert after.lines == before.lines && after.rest == before.rest + [c];
      }
    }
  }

  /** One line per '\n', empty lines included. */
  lemma {:induction false} FeedCount(pending: Text, s: Text)
    ensures |Feed(pending, s).lines| == CountNewlines(s)
  {
    if s != [] {
      FeedCount(pending, s[..|s| - 1]);
    }
  }

  /** Neither the lines nor the new pending text contain '\n'. */
  lemma {:induction false} FeedNoNewline(pending: Text, s: Text)
    requires NoNewline(pending)
    ensures NoNewline(Feed(pending, s).rest)
    ensures forall j :: 0 <= j < |Feed(pending, s).lines| ==> NoNewline(Feed(pending, s).lines[j])
  {
    if s != [] {
      FeedNoNewline(pending, s[..|s| - 1]);
    }
  }

  /** Text lines stacked downwards by 15 from `top`, all at x. */
  function Column(x: real, top: int, texts: seq<Text>): (r: seq<TextLine>)
    ensures |r| == |texts|
    ensures forall i :: 0 <= i < |r| ==> r[i] == TextLine(x, (top - 15 * i) as real, texts[i])
  {
    if texts == [] then []
    else Column(x, top, texts[..|texts| - 1]) + [TextLine(x, (top - 15 * (|texts| - 1)) as real, texts[|texts| - 1])]
  }

  /** A log entry as the right column shows it: "[" time "] " line. */
  function LogEntry(stamp: Text, line: Text): Text
  {
    Bytes("[") + stamp + Bytes("] ") + line
  }

  function LogEntries(stamps: seq<Text>, log: seq<Text>): (r: seq<Text>)
    requires |stamps| == |log|
    ensures |r| == |log|
    ensures forall i :: 0 <= i < |r| ==> r[i] == LogEntry(stamps[i], log[i])
  {
    if log == [] then []
    else LogEntries(stamps[..|log| - 1], log[..|log| - 1]) + [LogEntry(stamps[|log| - 1], log[|log| - 1])]
  }

  /** One more log entry extends the right column by one line. */
  lemma RightColumnStep(screenWidth: nat, top: int, stamps: seq<Text>, log: seq<Text>, i: nat)
    requires |stamps| == |log| && i < |log|
    ensures Column((screenWidth / 2) as real, top, LogEntries(stamps[..i + 1], log[..i + 1])) ==
      Column((screenWidth / 2) as real, top, LogEntries(stamps[..i], log[..i])) +
      [TextLine((screenWidth / 2) as real, (top - 15 * i) as real, LogEntry(stamps[i], log[i]))]
  {
    var entries := LogEntries(stamps[..i + 1], log[..i + 1]);
    assert entries[..i] == LogEntries(stamps[..i], log[..i]);
  }

  const ProjectName: Text := Bytes("Project ISANA")
  const VersionText: Text := Bytes("Version 0.1.0")
  const CompiledLabel: Text := Bytes("Compiled at ")
  const CameraPosLabel: Text := Bytes("Camera pos ")
  const CameraDistanceLabel: Text := Bytes("Camera distance ")

  /** The left column: name, version, build date and the camera read-outs. */
  function LeftTexts(compiledAt: Text, cameraPos: Text, cameraDistance: Text): seq<Text>
  {
    [ProjectName, VersionText, CompiledLabel + compiledAt,
     CameraPosLabel + cameraPos, CameraDistanceLabel + cameraDistance]
  }

  /** Where the left column starts. */
  const LeftX: real := 10.0

  class Console {
    /** The font writer singleton the console writes to. */
    const writer: FontWriter
    /** The clock reading when the console was created. */
    const start: real

    var log: seq<Text>
    var logTimes: seq<real>
    /** Bytes of the stream not yet terminated by '\n'. */
    var inStream: Text
    /** The cursors of the left and right columns. */
    var ly: int
    var ry: int

    ghost predicate Valid()
      reads this
    {
      |log| == |logTimes| && NoNewline(inStream)
    }

    /**
     * The console starts its log with one line naming its source file. The
     * source leaves the cursors unset until the first draw; they start at 0.
     */
    constructor(writer: FontWriter, start: real, now: real, file: Text)
      ensures Valid()
      ensures this.writer == writer && this.start == start
      ensures log == [file + Bytes(": Starting log...")] && logTimes == [now - start]
      ensures inStream == [] && ly == 0 && ry == 0
    {
      this.writer := writer;
      this.start := start;
      log := [];
      logTimes := [];
      inStream := [];
      ly := 0;
      ry := 0;
      new;
      AddLineLog(file + Bytes(": Starting log..."), now);
    }

    /** Append one line, stamped with the seconds since the console started. */
    method AddLineLog(line: Text, now: real)
      modifies this
      ensures log == old(log) + [line] && logTimes == old(logTimes) + [now - start]
      ensures |log| - |logTimes| == old(|log| - |logTimes|)
      ensures inStream == old(inStream) && ly == old(ly) && ry == old(ry)
    {
      log := log + [line];
      logTimes := logTimes + [now - start];
    }

    /**
     * Feed a byte stream: every '\n' logs the pending text (empty lines
     * included) and clears it; other bytes are kept pending. All lines of
     * one call get the same clock reading.
     */
    method AddToLogStream(input: Text, now: real)
      requires Valid()
      modifies this
      ensures Valid()
      ensures log == old(log) + Feed(old(inStream), input).lines
      ensures inStream == Feed(old(inStream), input).rest
      ensures logTimes == old(logTimes) + seq(|Feed(old(inStream), input).lines|, _ => now - start)
      ensures ly == old(ly) && ry == old(ry)
    {
      ghost var log0, times0, pending0 := log, logTimes, inStream;
      var i := 0;
      while i < |input|
        invariant 0 <= i <= |input|
        invariant log == log0 + Feed(pending0, input[..i]).lines
        invariant inStream == Feed(pending0, input[..i]).rest
        invariant logTimes == times0 + seq(|Feed(pending0, input[..i]).lines|, _ => now - start)
        invariant ly == old(ly) && ry == old(ry)
      {
        assert input[..i + 1][..i] == input[..i];
        if input[i] == Newline {
          AddLineLog(inStream, now);
          inStream := [];
        } else {
          inStream := inStream + [input[i]];
        }
        i := i + 1;
      }
      assert input[..i] == input;
      FeedNoNewline(pending0, input);
    }

    /** Write a line in the left column and move its cursor down. */
    method AddLineLeft(line: Text)
      modifies this, writer
      ensures writer.lines == old(writer.lines) + [TextLine(LeftX, old(ly) as real, line)]
      ensures ly == old(ly) - 15 && ry == old(ry)
      ensures log == old(log) && logTimes == old(logTimes) && inStream == old(inStream)
      ensures writer.AllButLines() == old(writer.AllButLines())
    {
      writer.AddLine(LeftX, ly as real, line);
      ly := ly - 15;
    }

    /** Write a line in the right column, which starts mid-screen, and move its cursor down. */
    method AddLineRight(line: Text, screenWidth: nat)
      modifies this, writer
      ensures writer.lines == old(writer.lines) + [TextLine((screenWidth / 2) as real, old(ry) as real, line)]
      ensures ry == old(ry) - 15 && ly == old(ly)
      ensures log == old(log) && logTimes == old(logTimes) && inStream == old(inStream)
      ensures writer.AllButLines() == old(writer.AllButLines())
    {
      var rx := screenWidth / 2;
      writer.AddLine(rx as real, ry as real, line);
      ry := ry - 15;
    }

    /**
     * Both cursors restart 20 below the top, the font writer's lines are
     * replaced by the left column and one right-column entry per log line.
     * `stamps` are the log times formatted as "%10.5f".
     */
    method Draw(screenWidth: nat, screenHeight: int, compiledAt: Text, cameraPos: Text, cameraDistance: Text,
                stamps: seq<Text>)
      requires |stamps| == |log|
      modifies this, writer
      ensures log == old(log) && logTimes == old(logTimes) && inStream == old(inStream)
      ensures writer.lines ==
        Column(LeftX, screenHeight - 20, LeftTexts(compiledAt, cameraPos, cameraDistance)) +
        Column((screenWidth / 2) as real, screenHeight - 20, LogEntries(stamps, log))
      ensures ly == screenHeight - 20 - 15 * 5
      ensures ry == screenHeight - 20 - 15 * |log|
      ensures writer.AllButLines() == old(writer.AllButLines())
    {
      ly := screenHeight - 20;
      ry := screenHeight - 20;

      writer.ResetLines();
      AddLeftColumn(compiledAt, cameraPos, cameraDistance);
      AddLogColumn(screenWidth, stamps);
    }

    /** The loop of `draw` that writes one right-column line per log entry. */
    method AddLogColumn(screenWidth: nat, stamps: seq<Text>)
      requires |stamps| == |log|
      modifies this, writer
      ensures log == old(log) && logTimes == old(logTimes) && inStream == old(inStream)
      ensures writer.lines == old(writer.lines) + Column((screenWidth / 2) as real, old(ry), LogEntries(stamps, log))
      ensures ry == old(ry) - 15 * |log| && ly == old(ly)
      ensures writer.AllButLines() == old(writer.AllButLines())
    {
      ghost var left := writer.lines;
      ghost var top := ry;
      var i := 0;
      while i < |log|
        invariant log == old(log) && logTimes == old(logTimes) && inStream == old(inStream) && ly == old(ly)
        invariant writer.AllButLines() == old(writer.AllButLines())
        invariant LogDrawn(left, (screenWidth / 2) as real, top, stamps, i)
      {
        AddLogLine(screenWidth, stamps, i, left, top);
        i := i + 1;
      }
      assert stamps[..i] == stamps && log[..i] == log;
    }

    /** The first `i` log entries are drawn below `top`, after the lines `left`. */
    ghost predicate LogDrawn(left: seq<TextLine>, x: real, top: int, stamps: seq<Text>, i: nat)
      reads this, writer
    {
      |stamps| == |log| && i <= |log| &&
      writer.lines == left + Column(x, top, LogEntries(stamps[..i], log[..i])) &&
      ry == top - 15 * i
    }

    /** One iteration of the log loop of `draw`. */
    method AddLogLine(screenWidth: nat, stamps: seq<Text>, i: nat, ghost left: seq<TextLine>, ghost top: int)
      requires LogDrawn(left, (screenWidth / 2) as real, top, stamps, i) && i < |log|
      modifies this, writer
      ensures log == old(log) && logTimes == old(logTimes) && inStream == old(inStream) && ly == old(ly)
      ensures LogDrawn(left, (screenWidth / 2) as real, top, stamps, i + 1)
      ensures writer.AllButLines() == old(writer.AllButLines())
    {
      ghost var before := writer.lines;
      var entry := LogEntry(stamps[i], log[i]);
      AddLineRight(entry, screenWidth);
      ghost var t := TextLine((screenWidth / 2) as real, (top - 15 * i) as real, entry);
      assert writer.lines == before + [t];
      RightColumnStep(screenWidth, top, stamps, log, i);
      ghost var drawn := Column((screenWidth / 2) as real, top, LogEntries(stamps[..i], log[..i]));
      assert (left + drawn) + [t] == left + (drawn + [t]);
    }

    /** The five add_line_left calls of `draw`, from a cleared font writer. */
    method AddLeftColumn(compiledAt: Text, cameraPos: Text, cameraDistance: Text)
      requires writer.lines == []
      modifies this, writer
      ensures writer.lines == Column(LeftX, old(ly), LeftTexts(compiledAt, cameraPos, cameraDistance))
      ensures ly == old(ly) - 15 * 5 && ry == old(ry)
      ensures log == old(log) && logTimes == old(logTimes) && inStream == old(inStream)
      ensures writer.AllButLines() == old(writer.AllButLines())
    {
      var texts := LeftTexts(compiledAt, cameraPos, cameraDistance);
      AddLineLeft(texts[0]);
      AddLineLeft(texts[1]);
      AddLineLeft(texts[2]);
      AddLineLeft(texts[3]);
      AddLineLeft(texts[4]);
      assert texts == texts[..4] + [texts[4]];
    }
  }
}
