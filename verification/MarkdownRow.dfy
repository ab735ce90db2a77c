/**
 * A Markdown table row to its cells, with pipes inside backticks left alone.
 * Source: scripts/eval-index.ts, lines 37-51.
 */
module MarkdownRow {
  import opened Prelude
  import opened Text

  /** The pieces of a row, at least one, before they are trimmed. */
  datatype Cut = One(piece: string) | More(piece: string, rest: Cut)

  function StripLead(s: string): string {
    if s != "" && s[0] == '|' then s[1..] else s
  }

  function StripTail(s: string): string {
    if s != "" && s[|s| - 1] == '|' then s[..|s| - 1] else s
  }

  function Flip(c: char, code: bool): bool {
    if c == '`' then !code else code
  }

  /** Whether a text leaves a code span open, given whether one is open before it. */
  function InCode(s: string, code: bool): bool {
    if s == "" then code else InCode(s[1..], Flip(s[0], code))
  }

  /** The first piece, with a text in front of it. */
  function Prefix(s: string, q: Cut): Cut {
    match q
    case One(p) => One(s + p)
    case More(p, rest) => More(s + p, rest)
  }

  /** The pieces between the pipes outside code spans. */
  function Pieces(s: string, code: bool): Cut {
    if s == "" then One("")
    else
      var now := Flip(s[0], code);
      if s[0] == '|' && !now then More("", Pieces(s[1..], now)) else Prefix([s[0]], Pieces(s[1..], now))
  }

  function Trims(q: Cut): (r: seq<string>)
    ensures |r| >= 1 && r[0] == Trim(q.piece)
  {
    match q
    case One(p) => [Trim(p)]
    case More(p, rest) => [Trim(p)] + Trims(rest)
  }

  function CellsOf(line: string): seq<string> {
    Trims(Pieces(StripTail(StripLead(Trim(line))), false))
  }

  lemma {:induction false} PiecesStep(s: string, i: nat, code: bool, current: string)
    requires i < |s|
    ensures var c, now := s[i], Flip(s[i], code);
            var next := Pieces(s[i + 1..], now);
            Prefix(current, Pieces(s[i..], code))
            == if c == '|' && !now then More(current, next) else Prefix(current + [c], next)
  {
    assert s[i..][0] == s[i] && s[i..][1..] == s[i + 1..];
    var now := Flip(s[i], code);
    Associates(current, [s[i]], Pieces(s[i + 1..], now).piece);
    assert current + "" == current;
  }

  lemma PrefixNothing(q: Cut)
    ensures Prefix("", q) == q
  {
    assert "" + q.piece == q.piece;
  }

  /** The cells of a row, part of it read: those found, and those the open piece and the rest will give. */
  ghost function Outcome(out: seq<string>, text: string, i: nat, code: bool, current: string): seq<string>
    requires i <= |text|
  {
    out + Trims(Prefix(current, Pieces(text[i..], code)))
  }

  lemma ScanStep(out: seq<string>, text: string, i: nat, code: bool, current: string)
    requires i < |text|
    ensures var c, now := text[i], Flip(text[i], code);
            Outcome(out, text, i, code, current)
            == if c == '|' && !now then Outcome(out + [Trim(current)], text, i + 1, now, "")
               else Outcome(out, text, i + 1, now, current + [c])
  {
    PiecesStep(text, i, code, current);
    var next := Pieces(text[i + 1..], Flip(text[i], code));
    PrefixNothing(next);
    Associates(out, [Trim(current)], Trims(next));
  }

  lemma {:induction false} ScanEnds(out: seq<string>, text: string, code: bool, current: string)
    ensures Outcome(out, text, |text|, code, current) == out + [Trim(current)]
    ensures Outcome([], text, 0, false, "") == Trims(Pieces(text, false))
  {
    assert current + "" == current && text[0..] == text;
    PrefixNothing(Pieces(text, false));
  }

  /** The source's scan: one character at a time, flipping at each backtick. */
  method Scan(text: string) returns (out: seq<string>)
    ensures out == Trims(Pieces(text, false))
  {
    out := [];
    var current, code := "", false;
    ScanEnds(out, text, code, current);
    for i := 0 to |text|
      invariant Outcome(out, text, i, code, current) == Trims(Pieces(text, false))
    {
      ScanStep(out, text, i, code, current);
      if text[i] == '`' {
        code := !code;
      }
      if text[i] == '|' && !code {
        out := out + [Trim(current)];
        current := "";
      } else {
        current := current + [text[i]];
      }
    }
    ScanEnds(out, text, code, current);
    out := out + [Trim(current)];
  }

  method Cells(line: string) returns (out: seq<string>)
    ensures out == CellsOf(line)
  {
    out := Scan(StripTail(StripLead(Trim(line))));
  }

  // ---------------------------------------------------------------- where a row splits

  /** Two runs of pieces, the last piece of one and the first of the other made one. */
  function Glue(p: Cut, q: Cut): Cut {
    match p
    case One(s) => Prefix(s, q)
    case More(s, rest) => More(s, Glue(rest, q))
  }

  function Append(p: Cut, q: Cut): Cut {
    match p
    case One(s) => More(s, q)
    case More(s, rest) => More(s, Append(rest, q))
  }

  lemma {:induction false} PrefixGlue(s: string, p: Cut, q: Cut)
    ensures Prefix(s, Glue(p, q)) == Glue(Prefix(s, p), q)
  {
    if p.One? {
      Associates(s, p.piece, q.piece);
    }
  }

  lemma {:induction false} PiecesGlue(a: string, b: string, code: bool)
    ensures Pieces(a + b, code) == Glue(Pieces(a, code), Pieces(b, InCode(a, code)))
  {
    if a == "" {
      assert a + b == b;
      PrefixNothing(Pieces(b, code));
    } else {
      var now := Flip(a[0], code);
      assert (a + b)[0] == a[0] && (a + b)[1..] == a[1..] + b;
      PiecesGlue(a[1..], b, now);
      PrefixGlue([a[0]], Pieces(a[1..], now), Pieces(b, InCode(a, code)));
    }
  }

  lemma {:induction false} GlueMore(p: Cut, q: Cut)
    ensures Glue(p, More("", q)) == Append(p, q)
  {
    if p.More? {
      GlueMore(p.rest, q);
    } else {
      assert p.piece + "" == p.piece;
    }
  }

  /**
   * A pipe splits the row if and only if it is outside every code span: outside, the pieces are those of
   * its two sides; inside, it is one more character of the piece it stands in.
   */
  lemma {:induction false} PipeSplits(a: string, b: string)
    ensures !InCode(a, false) ==> Pieces(a + "|" + b, false) == Append(Pieces(a, false), Pieces(b, false))
    ensures InCode(a, false) ==> Pieces(a + "|" + b, false) == Glue(Pieces(a, false), Prefix("|", Pieces(b, true)))
  {
    assert a + "|" + b == a + ("|" + b);
    PiecesGlue(a, "|" + b, false);
    assert ("|" + b)[1..] == b;
    GlueMore(Pieces(a, false), Pieces(b, false));
  }

  // ---------------------------------------------------------------- the round trip

  function Pad(cell: string): string {
    " " + cell + " "
  }

  /** The inside of a row: the padded cells, and a pipe between each two. */
  function Inner(cells: seq<string>): string {
    if cells == [] then ""
    else if |cells| == 1 then Pad(cells[0])
    else Pad(cells[0]) + "|" + Inner(cells[1..])
  }

  /** A row as the repository's tables are written: `| a | b |`. */
  function Row(cells: seq<string>): string {
    "|" + Inner(cells) + "|"
  }

  /** No pipe of the cell stands outside its own code spans. */
  predicate Whole(cell: string) {
    Pieces(cell, false).One?
  }

  /** What cells must be to survive: trimmed, no bare pipe, and no code span left open before the next. */
  predicate Survive(cells: seq<string>) {
    cells == [] ||
    (Trimmed(cells[0]) && Whole(cells[0]) && (|cells| > 1 ==> !InCode(cells[0], false)) && Survive(cells[1..]))
  }

  lemma FencesStrip(inner: string)
    ensures StripTail(StripLead(Trim("|" + inner + "|"))) == inner
  {
    var row := "|" + inner + "|";
    assert row[0] == '|' && row[|row| - 1] == '|';
    TrimmedStays(row);
    var open := row[1..];
    assert open[|open| - 1] == '|' && open[..|open| - 1] == inner;
  }

  lemma {:induction false} RowStrips(cells: seq<string>)
    ensures CellsOf(Row(cells)) == Trims(Pieces(Inner(cells), false))
  {
    FencesStrip(Inner(cells));
  }

  lemma {:induction false} InCodeAppend(a: string, b: string, code: bool)
    ensures InCode(a + b, code) == InCode(b, InCode(a, code))
  {
    if a == "" {
      assert a + b == b;
    } else {
      assert (a + b)[0] == a[0] && (a + b)[1..] == a[1..] + b;
      InCodeAppend(a[1..], b, Flip(a[0], code));
    }
  }

  lemma {:induction false} Space(code: bool)
    ensures InCode(" ", code) == code && Pieces(" ", code) == One(" ")
  {
    assert " "[1..] == "";
    assert " " + "" == " ";
  }

  /** A text in one piece is that piece; otherwise the first piece stops short of it. */
  lemma {:induction false} FirstPiece(s: string, code: bool)
    ensures Pieces(s, code).One? ==> Pieces(s, code).piece == s
    ensures Pieces(s, code).More? ==> |Pieces(s, code).piece| < |s|
  {
    if s != "" {
      FirstPiece(s[1..], Flip(s[0], code));
      assert s == [s[0]] + s[1..];
    }
  }

  /** Padding changes neither what a cell leaves open nor how it splits. */
  lemma {:induction false} PaddedCell(cell: string)
    ensures InCode(Pad(cell), false) == InCode(cell, false)
    ensures Pieces(Pad(cell), false) == Prefix(" ", Glue(Pieces(cell, false), One(" ")))
  {
    assert Pad(cell) == " " + (cell + " ");
    Space(false);
    Space(InCode(cell, false));
    InCodeAppend(" ", cell + " ", false);
    InCodeAppend(cell, " ", false);
    PiecesGlue(" ", cell + " ", false);
    PiecesGlue(cell, " ", false);
  }

  lemma WholePad(cell: string)
    requires Whole(cell)
    ensures Pieces(Pad(cell), false) == One(Pad(cell))
  {
    PaddedCell(cell);
    FirstPiece(cell, false);
    assert " " + (cell + " ") == Pad(cell);
  }

  lemma PaddedTrims(cell: string)
    requires Trimmed(cell)
    ensures Trim(Pad(cell)) == cell
  {
    TrimIs(" ", cell, " ");
  }

  lemma {:induction false} GluePiece(p: Cut, q: Cut)
    ensures Glue(p, q).piece == if p.One? then p.piece + q.piece else p.piece
    ensures p.More? ==> Glue(p, q).More?
  {}

  /** The first cell of what follows a cell and a pipe, when the cell leaves no code span open. */
  lemma {:induction false} ClosedCellSplits(cell: string, rest: string)
    requires !InCode(cell, false)
    ensures Pieces(Pad(cell) + "|" + rest, false) == Append(Pieces(Pad(cell), false), Pieces(rest, false))
  {
    PaddedCell(cell);
    PipeSplits(Pad(cell), rest);
  }

  /** A cell with a bare pipe comes back shorter than it was. */
  lemma {:induction false} BarePipeCuts(cell: string, after: Cut)
    requires !Whole(cell)
    ensures Trims(Glue(Pieces(Pad(cell), false), after))[0] != cell
  {
    PaddedCell(cell);
    FirstPiece(cell, false);
    var p := Pieces(cell, false);
    GluePiece(p, One(" "));
    GluePiece(Pieces(Pad(cell), false), after);
    TrimDrops(" " + p.piece);
    assert Glue(Pieces(Pad(cell), false), after).piece == " " + p.piece;
  }

  lemma PipeIsKept(cell: string, more: string)
    requires cell != "" && Trimmed(cell)
    ensures Trim(Pad(cell) + ("|" + more)) != cell
  {
    var s := Pad(cell) + ("|" + more);
    assert s[1] == cell[0] && s[|cell| + 2] == '|';
    TrimKeeps(s, 1, |cell| + 2);
  }

  lemma {:induction false} SwallowedPipe(cell: string, rest: string)
    requires Whole(cell) && InCode(cell, false)
    ensures Pieces(Pad(cell) + "|" + rest, false).piece == Pad(cell) + ("|" + Pieces(rest, true).piece)
  {
    PaddedCell(cell);
    WholePad(cell);
    PipeSplits(Pad(cell), rest);
  }

  /** A cell that leaves a code span open swallows the pipe that should have ended it. */
  lemma {:induction false} OpenCodeSwallows(cell: string, rest: string)
    requires Trimmed(cell) && Whole(cell) && InCode(cell, false)
    ensures Trims(Pieces(Pad(cell) + "|" + rest, false))[0] != cell
  {
    SwallowedPipe(cell, rest);
    PipeIsKept(cell, Pieces(rest, true).piece);
  }

  lemma LastCell(cell: string)
    ensures Trims(Pieces(Pad(cell), false)) == [cell] <==> Trimmed(cell) && Whole(cell)
  {
    if Whole(cell) {
      WholePad(cell);
      if Trimmed(cell) {
        PaddedTrims(cell);
      }
    } else {
      PaddedCell(cell);
      BarePipeCuts(cell, One(""));
      GluePiece(Pieces(Pad(cell), false), One(""));
      assert Pieces(Pad(cell), false).More?;
    }
  }

  lemma {:induction false} FirstCell(cell: string, cells: seq<string>)
    requires cells != []
    ensures Trims(Pieces(Pad(cell) + "|" + Inner(cells), false)) == [cell] + cells
            <==> Trimmed(cell) && Whole(cell) && !InCode(cell, false)
                 && Trims(Pieces(Inner(cells), false)) == cells
  {
    var got := Trims(Pieces(Pad(cell) + "|" + Inner(cells), false));
    assert ([cell] + cells)[0] == cell && ([cell] + cells)[1..] == cells;
    if !Whole(cell) {
      assert Pad(cell) + "|" + Inner(cells) == Pad(cell) + ("|" + Inner(cells));
      PiecesGlue(Pad(cell), "|" + Inner(cells), false);
      BarePipeCuts(cell, Pieces("|" + Inner(cells), InCode(Pad(cell), false)));
    } else if !InCode(cell, false) {
      ClosedCellSplits(cell, Inner(cells));
      WholePad(cell);
      assert got == [Trim(Pad(cell))] + Trims(Pieces(Inner(cells), false));
      assert got[1..] == Trims(Pieces(Inner(cells), false));
      if Trimmed(cell) {
        PaddedTrims(cell);
      }
    } else if Trimmed(cell) {
      OpenCodeSwallows(cell, Inner(cells));
    }
  }

  /**
   * The round trip: a list of cells, printed as a row, reads back as itself if and only if each cell is
   * trimmed and has no pipe outside its code spans, and every cell but the last closes its code spans.
   */
  lemma {:induction false} RowRoundTrip(cells: seq<string>)
    requires cells != []
    ensures CellsOf(Row(cells)) == cells <==> Survive(cells)
  {
    RowStrips(cells);
    if |cells| == 1 {
      assert cells == [cells[0]];
      LastCell(cells[0]);
    } else {
      assert cells == [cells[0]] + cells[1..];
      FirstCell(cells[0], cells[1..]);
      RowRoundTrip(cells[1..]);
      RowStrips(cells[1..]);
    }
  }
}
