/**
 The audit log endpoint's line handling: the log file's content is split on
 '\n' and the lines that trim to the empty string are dropped, keeping the
 rest in file order. Parsing each kept line as JSON is not part of this model.
 */
module LogLines {

  const Newline: char := '\n'

  /** The characters JavaScript's `trim` removes: white space and line terminators. */
  predicate IsJsWhitespace(c: char) {
    || c == '\t' || c == '\n' || c == '\U{000B}' || c == '\U{000C}' || c == '\r' || c == ' '
    || c == '\U{00A0}' || c == '\U{1680}' || ('\U{2000}' <= c <= '\U{200A}')
    || c == '\U{2028}' || c == '\U{2029}' || c == '\U{202F}' || c == '\U{205F}'
    || c == '\U{3000}' || c == '\U{FEFF}'
  }

  /** A line made of white space only (the empty line included). */
  predicate IsBlank(s: string) {
    forall i :: 0 <= i < |s| ==> IsJsWhitespace(s[i])
  }

  /** White space added at either end of a blank string leaves it blank. */
  lemma BlankAround(c: char, t: string)
    requires IsJsWhitespace(c) && IsBlank(t)
    ensures IsBlank([c] + t) && IsBlank(t + [c])
  {
  }

  function TrimStart(s: string): (r: string)
    ensures |r| <= |s| && r == s[|s| - |r|..]
    ensures IsBlank(s[..|s| - |r|])
    ensures r == [] || !IsJsWhitespace(r[0])
    decreases |s|
  {
    if |s| > 0 && IsJsWhitespace(s[0]) then
      var r := TrimStart(s[1..]);
      assert s[..|s| - |r|] == [s[0]] + s[1..][..|s[1..]| - |r|];
      BlankAround(s[0], s[1..][..|s[1..]| - |r|]);
      r
    else s
  }

  function TrimEnd(s: string): (r: string)
    ensures |r| <= |s| && r == s[..|r|]
    ensures IsBlank(s[|r|..])
    ensures r == [] || !IsJsWhitespace(r[|r| - 1])
    decreases |s|
  {
    if |s| > 0 && IsJsWhitespace(s[|s| - 1]) then
      var r := TrimEnd(s[..|s| - 1]);
      assert s[|r|..] == s[..|s| - 1][|r|..] + [s[|s| - 1]];
      BlankAround(s[|s| - 1], s[..|s| - 1][|r|..]);
      r
    else s
  }

  /**
   JavaScript's `String.prototype.trim`: never longer than its input, and
   neither starting nor ending with white space.
   */
  function Trim(s: string): (r: string)
    ensures |r| <= |s|
    ensures r == [] || (!IsJsWhitespace(r[0]) && !IsJsWhitespace(r[|r| - 1]))
  {
    var t := TrimStart(s);
    var r := TrimEnd(t);
    assert r != [] ==> r[0] == t[0];
    r
  }

  /** A line trims to nothing exactly when it is blank. */
  lemma TrimEmptyIffBlank(s: string)
    ensures Trim(s) == [] <==> IsBlank(s)
  {
  }

  /** JavaScript's `split('\n')`: always at least one piece, none containing '\n'. */
  function Split(s: string): (parts: seq<string>)
    ensures |parts| >= 1
    ensures forall i :: 0 <= i < |parts| ==> Newline !in parts[i]
    decreases |s|
  {
    if |s| == 0 then [[]]
    else
      var rest := Split(s[1..]);
      if s[0] == Newline then [[]] + rest
      else [[s[0]] + rest[0]] + rest[1..]
  }

  /** The inverse of `Split`: the pieces glued back with '\n'. */
  function Join(parts: seq<string>): string
    requires |parts| >= 1
    decreases |parts|
  {
    if |parts| == 1 then parts[0] else parts[0] + [Newline] + Join(parts[1..])
  }

  lemma {:induction false} JoinSplit(s: string)
    ensures Join(Split(s)) == s
    decreases |s|
  {
    if |s| > 0 {
      JoinSplit(s[1..]);
      var rest := Split(s[1..]);
      if s[0] != Newline && |rest| > 1 {
        assert Split(s)[1..] == rest[1..];
      }
    }
  }

  /** Splitting a piece free of '\n', then '\n', then anything: the piece comes off first. */
  lemma {:induction false} SplitAfterPiece(piece: string, rest: string)
    requires Newline !in piece
    ensures Split(piece + [Newline] + rest) == [piece] + Split(rest)
    decreases |piece|
  {
    if |piece| > 0 {
      SplitAfterPiece(piece[1..], rest);
      assert (piece + [Newline] + rest)[1..] == piece[1..] + [Newline] + rest;
      assert [piece[0]] + piece[1..] == piece;
    } else {
      assert (piece + [Newline] + rest)[1..] == rest;
    }
  }

  lemma {:induction false} SplitPiece(piece: string)
    requires Newline !in piece
    ensures Split(piece) == [piece]
    decreases |piece|
  {
    if |piece| > 0 {
      SplitPiece(piece[1..]);
      assert [piece[0]] + piece[1..] == piece;
    }
  }

  lemma {:induction false} SplitJoin(parts: seq<string>)
    requires |parts| >= 1
    requires forall i :: 0 <= i < |parts| ==> Newline !in parts[i]
    ensures Split(Join(parts)) == parts
    decreases |parts|
  {
    if |parts| == 1 {
      SplitPiece(parts[0]);
    } else {
      SplitJoin(parts[1..]);
      SplitAfterPiece(parts[0], Join(parts[1..]));
    }
  }

  /**
   The log filter: keep the non-blank lines, in order. The source tests
   `trim() !== ''`, which `TrimEmptyIffBlank` shows to be the same test.
   */
  function KeepNonBlank(lines: seq<string>): (kept: seq<string>)
    ensures |kept| <= |lines|
    decreases |lines|
  {
    if |lines| == 0 then []
    else
      (if !IsBlank(lines[0]) then [lines[0]] else []) + KeepNonBlank(lines[1..])
  }

  lemma KeepNonBlankCons(line: string, rest: seq<string>)
    ensures KeepNonBlank([line] + rest)
         == (if !IsBlank(line) then [line] else []) + KeepNonBlank(rest)
  {
  }

  /** A line is kept exactly when it occurs and is not blank. */
  lemma {:induction false} KeepNonBlankMembers(lines: seq<string>, x: string)
    ensures x in KeepNonBlank(lines) <==> x in lines && !IsBlank(x)
    decreases |lines|
  {
    if |lines| > 0 {
      KeepNonBlankMembers(lines[1..], x);
      assert lines == [lines[0]] + lines[1..];
    }
  }

  /** Filtering commutes with concatenation, so the kept lines keep their file order. */
  lemma {:induction false} KeepNonBlankAppend(a: seq<string>, b: seq<string>)
    ensures KeepNonBlank(a + b) == KeepNonBlank(a) + KeepNonBlank(b)
    decreases |a|
  {
    if |a| > 0 {
      KeepNonBlankAppend(a[1..], b);
      assert a + b == [a[0]] + (a[1..] + b);
      assert a == [a[0]] + a[1..];
      KeepNonBlankCons(a[0], a[1..] + b);
      KeepNonBlankCons(a[0], a[1..]);
    } else {
      assert a + b == b;
    }
  }

  /** The entries the log endpoint reads: the non-blank lines of the log file. */
  function LogEntries(content: string): (entries: seq<string>)
    ensures |entries| <= |Split(content)|
    ensures forall x :: x in entries <==> x in Split(content) && !IsBlank(x)
  {
    var lines := Split(content);
    assert forall x :: x in KeepNonBlank(lines) <==> x in lines && !IsBlank(x) by {
      forall x {
        KeepNonBlankMembers(lines, x);
      }
    }
    KeepNonBlank(lines)
  }

  /** The endpoint's per-line test, `trim() !== ''`. */
  method IsEntry(line: string) returns (keep: bool)
    ensures keep <==> !IsBlank(line)
  {
    TrimEmptyIffBlank(line);
    keep := Trim(line) != [];
  }

  /**
   The entries are exactly the lines of the content that do not trim to the
   empty string.
   */
  lemma LogEntriesExact(content: string, x: string)
    ensures x in LogEntries(content) <==> x in Split(content) && Trim(x) != []
  {
    KeepNonBlankMembers(Split(content), x);
    TrimEmptyIffBlank(x);
  }

  /**
   The endpoint's filter as a loop over the split lines: it keeps the same
   entries, in the same order, as the filter definition.
   */
  method FilterEntries(lines: seq<string>) returns (entries: seq<string>)
    ensures entries == KeepNonBlank(lines)
  {
    entries := [];
    var k := 0;
    while k < |lines|
      invariant 0 <= k <= |lines|
      invariant entries == KeepNonBlank(lines[..k])
    {
      var keep := IsEntry(lines[k]);
      assert lines[..k + 1] == lines[..k] + [lines[k]];
      KeepNonBlankAppend(lines[..k], [lines[k]]);
      KeepNonBlankCons(lines[k], []);
      if keep {
        entries := entries + [lines[k]];
      }
      k := k + 1;
    }
    assert lines[..k] == lines;
  }
}
