/// The per-string part of extract_text_from_sheet: each text cell of the
/// sheet is normalised and cut into stripped, non-empty lines, which are
/// concatenated in cell order.
module Extract {
  import opened Results
  import opened PyText

  /** The full-width brackets and colon folded to their ASCII forms. */
  function FoldChar(c: char): char {
    if c == '\U{FF08}' then '('
    else if c == '\U{FF09}' then ')'
    else if c == '\U{FF1A}' then ':'
    else c
  }

  predicate IsFullWidthMark(c: char) {
    c == '\U{FF08}' || c == '\U{FF09}' || c == '\U{FF1A}'
  }

  /** The three full-width characters replaced by their ASCII forms, one
      replacement after the other. */
  function FoldFullWidth(s: string): string {
    seq(|s|, i requires 0 <= i < |s| => FoldChar(s[i]))
  }

  /** The position, in t, of the first ')' that comes before any newline. */
  function CloseIn(t: string): (r: Option<nat>)
    ensures r.Some? ==> r.value < |t| && t[r.value] == ')' && '\n' !in t[..r.value]
    decreases |t|
  {
    if t == [] || t[0] == '\n' then None
    else if t[0] == ')' then Some(0)
    else match CloseIn(t[1..])
      case None => None
      case Some(k) =>
        assert t[..k + 1] == [t[0]] + t[1..][..k];
        Some(k + 1)
  }

  /** re.sub(r'\(.*?\)', '', s): scanning left to right, a '(' that has a ')'
      after it on the same line is removed together with everything up to the
      first such ')'; any other character is kept. */
  function RemoveParenthesized(s: string): string
    decreases |s|
  {
    if s == [] then []
    else if s[0] == '(' && CloseIn(s[1..]).Some? then RemoveParenthesized(s[CloseIn(s[1..]).value + 2..])
    else [s[0]] + RemoveParenthesized(s[1..])
  }

  /** The lines of one normalised cell: split on newlines, each stripped, the
      empty ones dropped. */
  function Pieces(s: string): seq<string>
  {
    var parts := SplitOn(s, '\n');
    NonEmptyStripped(parts)
  }

  function NonEmptyStripped(parts: seq<string>): seq<string>
    decreases |parts|
  {
    if parts == [] then []
    else (if Strip(parts[0]) != [] then [Strip(parts[0])] else []) + NonEmptyStripped(parts[1..])
  }

  /** One text cell: fold, then (catalog-unaware variant only) remove every
      "AK" and then every "ES", then remove the parenthesised text, then cut
      into lines. */
  function CellLines(variant: Variant, value: string): seq<string> {
    var folded := FoldFullWidth(value);
    var marked := if variant == CatalogUnaware then RemoveAll(RemoveAll(folded, "AK"), "ES") else folded;
    Pieces(RemoveParenthesized(marked))
  }

  /** The lines of a sheet whose text cells, in row order, are cells. */
  function SheetLines(variant: Variant, cells: seq<string>): seq<string>
    decreases |cells|
  {
    if cells == [] then [] else CellLines(variant, cells[0]) + SheetLines(variant, cells[1..])
  }

  /** One step of SheetLines, at position i. */
  lemma SheetLinesAt(variant: Variant, cells: seq<string>, i: nat)
    requires i < |cells|
    ensures SheetLines(variant, cells[i..]) == CellLines(variant, cells[i]) + SheetLines(variant, cells[i + 1..])
  {
    assert cells[i..][0] == cells[i];
    assert cells[i..][1..] == cells[i + 1..];
  }

  /** Appending the lines of cell i keeps the lines gathered so far a prefix
      of the sheet's lines. */
  lemma SheetLinesStep(variant: Variant, cells: seq<string>, i: nat, lines: seq<string>, pieces: seq<string>)
    requires i < |cells| && pieces == CellLines(variant, cells[i])
    requires lines + SheetLines(variant, cells[i..]) == SheetLines(variant, cells)
    ensures (lines + pieces) + SheetLines(variant, cells[i + 1..]) == SheetLines(variant, cells)
  {
    SheetLinesAt(variant, cells, i);
    ConcatAssoc(lines, pieces, SheetLines(variant, cells[i + 1..]));
  }

  /** The body of the loop of extract_text_from_sheet, for one text cell. */
  method CellText(variant: Variant, cell: string) returns (pieces: seq<string>)
    ensures pieces == CellLines(variant, cell)
  {
    var value := FoldFullWidth(cell);
    if variant == CatalogUnaware {
      value := RemoveAll(RemoveAll(value, "AK"), "ES");
    }
    value := RemoveParenthesized(value);
    pieces := Pieces(value);
  }

  /** extract_text_from_sheet over the text cells, with the regex module
      available. */
  method ExtractText(variant: Variant, cells: seq<string>) returns (lines: seq<string>)
    ensures lines == SheetLines(variant, cells)
  {
    lines := [];
    for i := 0 to |cells|
      invariant lines + SheetLines(variant, cells[i..]) == SheetLines(variant, cells)
    {
      var pieces := CellText(variant, cells[i]);
      SheetLinesStep(variant, cells, i, lines, pieces);
      lines := lines + pieces;
    }
    assert cells[|cells|..] == [];
  }

  /** extract_text_from_sheet as written: the catalog-unaware file calls
      re.sub without importing re, so its first text cell raises NameError. */
  function ExtractAsWritten(variant: Variant, cells: seq<string>): Outcome<seq<string>> {
    if variant == CatalogUnaware && cells != [] then Raised(NameError)
    else Ok(SheetLines(variant, cells))
  }

  // ---------------------------------------------------------------- Lemmas

  /** The folding keeps the length, leaves no full-width bracket or colon,
      keeps every other character (newlines in particular) in place. */
  lemma FoldFullWidthFacts(s: string)
    ensures var r := FoldFullWidth(s);
      && |r| == |s|
      && (forall i :: 0 <= i < |r| ==> !IsFullWidthMark(r[i]))
      && (forall i :: 0 <= i < |s| && !IsFullWidthMark(s[i]) ==> r[i] == s[i])
  {
  }

  /** As written, the catalog-unaware extraction fails on every sheet with a
      text cell, even one whose corrected extraction has lines. */
  lemma UnawareAsWrittenFails(cells: seq<string>)
    requires cells != [] && CellLines(CatalogUnaware, cells[0]) != []
    ensures SheetLines(CatalogUnaware, cells) != []
    ensures ExtractAsWritten(CatalogUnaware, cells) == Raised(NameError)
  {
  }

  /** The extraction of a sheet is the extraction of its cells in order. */
  lemma {:induction false} SheetLinesAppend(variant: Variant, a: seq<string>, b: seq<string>)
    ensures SheetLines(variant, a + b) == SheetLines(variant, a) + SheetLines(variant, b)
    decreases |a|
  {
    if a != [] {
      var first := CellLines(variant, a[0]);
      calc {
        SheetLines(variant, a + b);
        { assert (a + b)[0] == a[0]; assert (a + b)[1..] == a[1..] + b; }
        first + SheetLines(variant, a[1..] + b);
        { SheetLinesAppend(variant, a[1..], b); }
        first + (SheetLines(variant, a[1..]) + SheetLines(variant, b));
        { ConcatAssoc(first, SheetLines(variant, a[1..]), SheetLines(variant, b)); }
        SheetLines(variant, a) + SheetLines(variant, b);
      }
    } else {
      assert a + b == b;
    }
  }

  /** A line is clean when it is non-empty, its own strip and holds no
      newline: the shape of every extracted line. */
  predicate Clean(line: string) {
    line != [] && Strip(line) == line && '\n' !in line
  }

  /** Every piece of a cell is clean. */
  lemma {:induction false} PiecesClean(parts: seq<string>)
    requires forall k :: 0 <= k < |parts| ==> '\n' !in parts[k]
    ensures forall k :: 0 <= k < |NonEmptyStripped(parts)| ==> Clean(NonEmptyStripped(parts)[k])
    decreases |parts|
  {
    if parts != [] {
      PiecesClean(parts[1..]);
      StripStripped(parts[0]);
      StripWithin(parts[0]);
    }
  }

  /** Every extracted line is clean. */
  lemma {:induction false} SheetLinesClean(variant: Variant, cells: seq<string>)
    ensures forall k :: 0 <= k < |SheetLines(variant, cells)| ==> Clean(SheetLines(variant, cells)[k])
    decreases |cells|
  {
    if cells != [] {
      SheetLinesClean(variant, cells[1..]);
      var folded := FoldFullWidth(cells[0]);
      var marked := if variant == CatalogUnaware then RemoveAll(RemoveAll(folded, "AK"), "ES") else folded;
      PiecesClean(SplitOn(RemoveParenthesized(marked), '\n'));
    }
  }

  /** Clean lines are kept as they are. */
  lemma {:induction false} CleanKept(lines: seq<string>)
    requires forall k :: 0 <= k < |lines| ==> Clean(lines[k])
    ensures NonEmptyStripped(lines) == lines
    decreases |lines|
  {
    if lines != [] {
      CleanKept(lines[1..]);
    }
  }

  /** A cell whose text is clean lines joined by newlines yields exactly those
      lines. */
  lemma PiecesJoin(lines: seq<string>)
    requires lines != []
    requires forall k :: 0 <= k < |lines| ==> Clean(lines[k])
    ensures Pieces(Join(lines, "\n")) == lines
  {
    JoinSplitOn(lines, '\n');
    CleanKept(lines);
  }

  /** Text without '(' passes the parenthesis removal unchanged. */
  lemma {:induction false} NoOpenUnchanged(s: string)
    requires '(' !in s
    ensures RemoveParenthesized(s) == s
    decreases |s|
  {
    if s != [] {
      NoOpenUnchanged(s[1..]);
      assert [s[0]] + s[1..] == s;
    }
  }

  /** No '(' in r has a ')' after it on the same line. */
  predicate NoClosedParen(r: string) {
    forall i :: 0 <= i < |r| && r[i] == '(' ==> CloseIn(r[i + 1..]).None?
  }

  /** No '(' left after the removal has a ')' after it on the same line. */
  lemma {:induction false} NoParenLeft(s: string)
    ensures NoClosedParen(RemoveParenthesized(s))
    decreases |s|
  {
    var r := RemoveParenthesized(s);
    if s != [] {
      if s[0] == '(' && CloseIn(s[1..]).Some? {
        var t := s[CloseIn(s[1..]).value + 2..];
        NoParenLeft(t);
        assert r == RemoveParenthesized(t);
      } else {
        var rest := RemoveParenthesized(s[1..]);
        assert r == [s[0]] + rest;
        NoParenLeft(s[1..]);
        forall i | 0 <= i < |r| && r[i] == '('
          ensures CloseIn(r[i + 1..]).None?
        {
          if i == 0 {
            UnclosedStaysUnclosed(s[1..]);
            assert r[1..] == rest;
          } else {
            assert r[i + 1..] == rest[i - 1 + 1..];
            assert rest[i - 1] == '(';
            assert CloseIn(rest[i - 1 + 1..]).None?;
          }
        }
      }
    }
  }

  /** Text with no ')' before its first newline keeps that property through
      the removal. */
  lemma {:induction false} UnclosedStaysUnclosed(t: string)
    requires CloseIn(t).None?
    ensures CloseIn(RemoveParenthesized(t)).None?
    decreases |t|
  {
    if t != [] && t[0] != '\n' {
      assert CloseIn(t[1..]).None?;
      UnclosedStaysUnclosed(t[1..]);
      var r := RemoveParenthesized(t);
      assert r == [t[0]] + RemoveParenthesized(t[1..]);
      assert r[1..] == RemoveParenthesized(t[1..]);
    } else if t != [] {
      var r := RemoveParenthesized(t);
      assert r == [t[0]] + RemoveParenthesized(t[1..]);
    }
  }

  /** The removal never spans a line break: the text keeps all its newlines,
      so a cell keeps its line count. */
  lemma LinesKept(s: string)
    ensures |SplitOn(RemoveParenthesized(s), '\n')| == |SplitOn(s, '\n')|
  {
    NewlinesKept(s);
    SplitOnJoin(s, '\n');
    SplitOnJoin(RemoveParenthesized(s), '\n');
  }

  lemma {:induction false} NewlinesKept(s: string)
    ensures CountChar(RemoveParenthesized(s), '\n') == CountChar(s, '\n')
    decreases |s|
  {
    if s != [] {
      if s[0] == '(' && CloseIn(s[1..]).Some? {
        var k := CloseIn(s[1..]).value;
        NewlinesKept(s[k + 2..]);
        assert s == s[..k + 2] + s[k + 2..];
        CountCharConcat(s[..k + 2], s[k + 2..], '\n');
        assert s[..k + 2] == [s[0]] + s[1..][..k] + [s[k + 1]];
        CountCharConcat([s[0]] + s[1..][..k], [s[k + 1]], '\n');
        CountCharConcat([s[0]], s[1..][..k], '\n');
        CountCharAbsent(s[1..][..k], '\n');
      } else {
        NewlinesKept(s[1..]);
        CountCharConcat([s[0]], RemoveParenthesized(s[1..]), '\n');
      }
    }
  }
}
