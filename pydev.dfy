/**
 * `coveo_stew.pydev._format_toml`: tidying the text tomlkit writes for a
 * pydev project. Blank lines are dropped, and every section header after
 * the first line gets a `"\n"` emitted before it, so that sections end up
 * separated by empty lines once the pieces are joined with newlines.
 */
module PyDev {
  import opened Text

  /** Every character is whitespace, so `line.strip()` is empty (see `HeaderAndKept`). */
  predicate Blank(line: string)
    decreases |line|
  {
    |line| == 0 || (IsSpace(line[0]) && Blank(line[1..]))
  }

  /** `line.strip()` is not empty: the line is kept. */
  predicate Kept(line: string)
  {
    !Blank(line)
  }

  /** `line.strip().startswith("[")`: the first character that is not whitespace is `[` (see `HeaderAndKept`). */
  predicate IsHeader(line: string)
    decreases |line|
  {
    |line| > 0 && if IsSpace(line[0]) then IsHeader(line[1..]) else line[0] == '['
  }

  /** Both tests agree with the ones on `line.strip()`. */
  lemma HeaderAndKept(line: string)
    ensures Kept(line) <==> Strip(line) != ""
    ensures IsHeader(line) <==> |Strip(line)| > 0 && Strip(line)[0] == '['
  {
    BlankIsBlank(line);
    HeaderLStrip(line);
    var l := LStrip(line);
    var k := |line| - |l|;
    if |Strip(line)| > 0 {
      assert Strip(line)[0] == line[k];
      assert l[0] == line[k];
    }
  }

  lemma {:induction false} BlankIsBlank(line: string)
    ensures Blank(line) <==> IsBlank(line)
    decreases |line|
  {
    if |line| > 0 {
      BlankIsBlank(line[1..]);
      assert forall i :: 1 <= i < |line| ==> line[i] == line[1..][i - 1];
    }
  }

  lemma {:induction false} HeaderLStrip(line: string)
    ensures IsHeader(line) <==> |LStrip(line)| > 0 && LStrip(line)[0] == '['
    decreases |line|
  {
    if |line| > 0 && IsSpace(line[0]) {
      HeaderLStrip(line[1..]);
    }
  }

  /** What one input line contributes: the separator for a non-first header, then the line unless it is blank. */
  function Emit(first: bool, line: string): seq<string>
  {
    (if !first && IsHeader(line) then ["\n"] else []) + (if Kept(line) then [line] else [])
  }

  /** The output for `lines`, the first of which is the document's first line exactly when `first`. */
  function Format(lines: seq<string>, first: bool): (r: seq<string>)
    ensures |r| <= 2 * |lines|
    decreases |lines|
  {
    if |lines| == 0 then [] else Emit(first, lines[0]) + Format(lines[1..], false)
  }

  /** `_format_toml`: the loop over the lines of the document, with its `first` flag. */
  method FormatToml(content: string) returns (out: seq<string>)
    ensures out == Format(Split(content, '\n'), true)
  {
    var lines := Split(content, '\n');
    var first := true;
    out := [];
    var i := 0;
    while i < |lines|
      invariant 0 <= i <= |lines|
      invariant first <==> i == 0
      invariant out == Format(lines[..i], true)
    {
      var line := lines[i];
      var before := out;
      if !first && IsHeader(line) {
        out := out + ["\n"];
      }
      if Kept(line) {
        out := out + [line];
      }
      assert out == before + Emit(first, line);
      assert lines[..i + 1] == lines[..i] + [line];
      FormatSnoc(lines[..i], line, true);
      first := false;
      i := i + 1;
    }
    assert lines[..i] == lines;
  }

  /** Appending a line appends what it contributes. */
  lemma {:induction false} FormatSnoc(lines: seq<string>, line: string, first: bool)
    ensures Format(lines + [line], first) == Format(lines, first) + Emit(first && |lines| == 0, line)
    decreases |lines|
  {
    if |lines| == 0 {
      assert lines + [line] == [line];
      FormatSingle(line, first);
    } else {
      FormatSnoc(lines[1..], line, false);
      var head := Emit(first, lines[0]);
      var tail := Format(lines[1..], false);
      var last := Emit(false, line);
      assert Format(lines + [line], first) == head + (tail + last) by {
        FormatSnocStep(lines, line, first, tail + last);
      }
      assert Format(lines, first) == head + tail by {
        FormatCons(lines, first);
      }
      assert head + (tail + last) == head + tail + last;
    }
  }

  lemma FormatSingle(line: string, first: bool)
    ensures Format([line], first) == Emit(first, line)
  {
    FormatCons([line], first);
    assert [line][1..] == [];
  }

  lemma FormatSnocStep(lines: seq<string>, line: string, first: bool, rest: seq<string>)
    requires |lines| > 0 && Format(lines[1..] + [line], false) == rest
    ensures Format(lines + [line], first) == Emit(first, lines[0]) + rest
  {
    var all := lines + [line];
    assert all[0] == lines[0] && all[1..] == lines[1..] + [line];
    FormatCons(all, first);
  }

  /** The output for a non-empty document starts with what its first line contributes. */
  lemma FormatCons(lines: seq<string>, first: bool)
    requires |lines| > 0
    ensures Format(lines, first) == Emit(first, lines[0]) + Format(lines[1..], false)
  {
  }

  /** Every output line is a separator or one of the input lines. */
  lemma {:induction false} FormatFromLines(lines: seq<string>, first: bool)
    ensures forall k :: 0 <= k < |Format(lines, first)| ==> Format(lines, first)[k] == "\n" || Format(lines, first)[k] in lines
    decreases |lines|
  {
    if |lines| > 0 {
      FormatFromLines(lines[1..], false);
      var head := Emit(first, lines[0]);
      var tail := Format(lines[1..], false);
      forall k | 0 <= k < |head + tail| ensures (head + tail)[k] == "\n" || (head + tail)[k] in lines {
        if k >= |head| {
          assert (head + tail)[k] == tail[k - |head|];
          if tail[k - |head|] in lines[1..] {
            var j :| 0 <= j < |lines[1..]| && lines[1..][j] == tail[k - |head|];
            assert lines[j + 1] == tail[k - |head|];
          }
        }
      }
    }
  }

  /** The output without its `"\n"` separators. */
  function WithoutBreaks(out: seq<string>): seq<string>
    decreases |out|
  {
    if |out| == 0 then [] else (if out[0] == "\n" then [] else [out[0]]) + WithoutBreaks(out[1..])
  }

  /** The lines that are not blank, in order. */
  function NonBlankLines(lines: seq<string>): seq<string>
    decreases |lines|
  {
    if |lines| == 0 then [] else (if Kept(lines[0]) then [lines[0]] else []) + NonBlankLines(lines[1..])
  }

  lemma {:induction false} WithoutBreaksAppend(a: seq<string>, b: seq<string>)
    ensures WithoutBreaks(a + b) == WithoutBreaks(a) + WithoutBreaks(b)
    decreases |a|
  {
    if |a| > 0 {
      assert (a + b)[0] == a[0] && (a + b)[1..] == a[1..] + b;
      WithoutBreaksAppend(a[1..], b);
    } else {
      assert a + b == b;
    }
  }

  /** Leaving the separators aside, the output is exactly the non-blank lines, unchanged and in their order. */
  lemma {:induction false} FormatKeepsLines(lines: seq<string>, first: bool)
    ensures WithoutBreaks(Format(lines, first)) == NonBlankLines(lines)
    decreases |lines|
  {
    if |lines| > 0 {
      var line := lines[0];
      var sep: seq<string> := if !first && IsHeader(line) then ["\n"] else [];
      var kept: seq<string> := if Kept(line) then [line] else [];
      NewlineBlank();
      WithoutBreaksAppend(sep + kept, Format(lines[1..], false));
      WithoutBreaksAppend(sep, kept);
      assert WithoutBreaks(sep) == [];
      assert kept == [] || kept[1..] == [];
      assert WithoutBreaks(kept) == (if Kept(line) then [line] else []);
      FormatKeepsLines(lines[1..], false);
    }
  }

  /** The number of section headers among `lines` that do not start the document. */
  function LaterHeaders(lines: seq<string>, first: bool): nat
    decreases |lines|
  {
    if |lines| == 0 then 0 else (if !first && IsHeader(lines[0]) then 1 else 0) + LaterHeaders(lines[1..], false)
  }

  /** The number of `"\n"` separators in an output. */
  function Breaks(out: seq<string>): nat
    decreases |out|
  {
    if |out| == 0 then 0 else (if out[0] == "\n" then 1 else 0) + Breaks(out[1..])
  }

  lemma {:induction false} BreaksAppend(a: seq<string>, b: seq<string>)
    ensures Breaks(a + b) == Breaks(a) + Breaks(b)
    decreases |a|
  {
    if |a| > 0 {
      assert (a + b)[0] == a[0] && (a + b)[1..] == a[1..] + b;
      BreaksAppend(a[1..], b);
    } else {
      assert a + b == b;
    }
  }

  /** One separator is emitted per section header, except on the first line of the document. */
  lemma {:induction false} FormatBreaks(lines: seq<string>, first: bool)
    ensures Breaks(Format(lines, first)) == LaterHeaders(lines, first)
    decreases |lines|
  {
    if |lines| > 0 {
      var line := lines[0];
      var sep: seq<string> := if !first && IsHeader(line) then ["\n"] else [];
      var kept: seq<string> := if Kept(line) then [line] else [];
      FormatCons(lines, first);
      BreaksAppend(sep + kept, Format(lines[1..], false));
      BreaksAppend(sep, kept);
      NewlineBlank();
      assert Breaks(sep) == |sep| by {
        assert sep == [] || sep[1..] == [];
      }
      assert Breaks(kept) == 0 by {
        assert kept == [] || (kept[0] != "\n" && kept[1..] == []);
      }
      FormatBreaks(lines[1..], false);
    }
  }

  /** Every `"\n"` in `out` is directly followed by a section header. */
  predicate BreaksBeforeHeaders(out: seq<string>)
  {
    forall k :: 0 <= k < |out| && out[k] == "\n" ==> k + 1 < |out| && IsHeader(out[k + 1])
  }

  lemma BreaksBeforeHeadersAppend(a: seq<string>, b: seq<string>)
    requires BreaksBeforeHeaders(a) && BreaksBeforeHeaders(b)
    ensures BreaksBeforeHeaders(a + b)
  {
    var out := a + b;
    forall k | 0 <= k < |out| && out[k] == "\n"
      ensures k + 1 < |out| && IsHeader(out[k + 1])
    {
      if k < |a| {
        assert a[k] == "\n";
        assert out[k + 1] == a[k + 1];
      } else {
        assert b[k - |a|] == "\n";
        assert out[k + 1] == b[k + 1 - |a|];
      }
    }
  }

  /** Every separator is directly followed by a section header, so the output never ends with one. */
  lemma {:induction false} BreakBeforeHeader(lines: seq<string>, first: bool)
    ensures BreaksBeforeHeaders(Format(lines, first))
    decreases |lines|
  {
    if |lines| > 0 {
      BreakBeforeHeader(lines[1..], false);
      EmitBreakBeforeHeader(first, lines[0]);
      BreaksBeforeHeadersAppend(Emit(first, lines[0]), Format(lines[1..], false));
    }
  }

  lemma EmitBreakBeforeHeader(first: bool, line: string)
    ensures BreaksBeforeHeaders(Emit(first, line))
  {
    NewlineBlank();
    if !first && IsHeader(line) {
      HeaderKept(line);
      assert Emit(first, line) == ["\n", line];
    } else {
      assert Emit(first, line) == (if Kept(line) then [line] else []);
      assert Kept(line) ==> line != "\n";
    }
  }

  /** A header line is never blank. */
  lemma {:induction false} HeaderKept(line: string)
    requires IsHeader(line)
    ensures Kept(line)
    decreases |line|
  {
    if IsSpace(line[0]) {
      HeaderKept(line[1..]);
    }
  }

  /** The separator is a blank line, so it is never kept and is not a header. */
  lemma NewlineBlank()
    ensures Blank("\n") && !Kept("\n") && !IsHeader("\n")
  {
    assert "\n"[0] == '\n';
    assert "\n"[1..] == "";
  }

  /** Nothing is emitted before the first line: a non-blank first line comes out first. */
  lemma NoBreakFirst(lines: seq<string>)
    requires |lines| > 0 && Kept(lines[0])
    ensures |Format(lines, true)| > 0 && Format(lines, true)[0] == lines[0]
  {
  }
}
