/** formatBullets (src/utils/latex.ts:24-32): free text becomes one
    `\item` line per non-blank line. */
module Bullets {
  import opened Text
  import opened Escape

  /** `line` without one carriage return at its end. */
  function DropCR(line: string): string
  {
    if line != [] && line[|line| - 1] == '\r' then line[..|line| - 1] else line
  }

  /** text.split(/\r?\n/): the pieces between line feeds, where a piece
      that a line feed ends also loses the one carriage return that stood
      right before that line feed. */
  function SplitLines(text: string): (lines: seq<string>)
    ensures |lines| == |Split(text, '\n')|
  {
    DropCRs(Split(text, '\n'))
  }

  /** Every piece but the last, which ends the text rather than a line
      feed, loses its final carriage return. */
  function DropCRs(pieces: seq<string>): (lines: seq<string>)
    ensures |lines| == |pieces|
  {
    if |pieces| <= 1 then pieces else [DropCR(pieces[0])] + DropCRs(pieces[1..])
  }

  /** The list items: every line trimmed, blank lines dropped. */
  function BulletItems(text: string): (items: seq<string>)
    ensures forall i :: 0 <= i < |items| ==> items[i] != [] && IsTrimmed(items[i]) && '\n' !in items[i]
  {
    LinesIgnoreCR(text);
    TrimNonEmptyKeeps(Split(text, '\n'), '\n');
    TrimNonEmpty(SplitLines(text))
  }

  /** One list item: the macro and the escaped item text. */
  function ItemLine(item: string): string
  {
    @"\item " + EscapeLatex(item)
  }

  function ItemLines(items: seq<string>): seq<string>
  {
    seq(|items|, i requires 0 <= i < |items| => ItemLine(items[i]))
  }

  /** formatBullets: "" for missing text and for text without a non-blank
      line, otherwise the item lines joined by line feeds. */
  function FormatBullets(text: string): string
  {
    if text == [] then []
    else
      var items := BulletItems(text);
      if items == [] then [] else Join(ItemLines(items), "\n")
  }

  /** Dropping a carriage return keeps a whitespace-only piece
      whitespace-only and does not change the trim. */
  lemma DropCRTrim(p: string)
    ensures Trim(DropCR(p)) == Trim(p)
  {
    if p != [] && p[|p| - 1] == '\r' {
      assert p == DropCR(p) + ['\r'];
      TrimAppendSpace(DropCR(p), '\r');
    }
  }

  /** The carriage-return handling of the line split is absorbed by the
      trim: the items are the trimmed non-blank pieces between line feeds. */
  lemma LinesIgnoreCR(text: string)
    ensures TrimNonEmpty(SplitLines(text)) == TrimNonEmpty(Split(text, '\n'))
  {
    DropCRsTrim(Split(text, '\n'));
  }

  lemma {:induction false} DropCRsTrim(pieces: seq<string>)
    ensures TrimNonEmpty(DropCRs(pieces)) == TrimNonEmpty(pieces)
  {
    if |pieces| > 1 {
      DropCRsTrim(pieces[1..]);
      DropCRTrim(pieces[0]);
      var lines := DropCRs(pieces);
      assert lines[0] == DropCR(pieces[0]);
      assert lines[1..] == DropCRs(pieces[1..]);
    }
  }

  lemma ItemsIgnoreCR(text: string)
    ensures BulletItems(text) == TrimNonEmpty(Split(text, '\n'))
  {
    LinesIgnoreCR(text);
  }

  /** A line is blank exactly when it is whitespace only. */
  lemma ItemsEmpty(text: string)
    ensures BulletItems(text) == [] <==> AllSpace(text)
  {
    var pieces := Split(text, '\n');
    ItemsIgnoreCR(text);
    AllSpaceJoin(pieces, '\n');
    TrimNonEmptyNone(pieces);
  }

  /** formatBullets returns "" exactly for text that is missing, empty or
      whitespace only. */
  lemma FormatBulletsEmpty(text: string)
    ensures FormatBullets(text) == [] <==> AllSpace(text)
  {
    ItemsEmpty(text);
    var items := BulletItems(text);
    if items != [] {
      assert ItemLines(items)[0][0] == '\\';
      JoinNonEmpty(ItemLines(items), "\n");
    }
  }

  lemma {:induction false} JoinNonEmpty(parts: seq<string>, sep: string)
    requires |parts| >= 1 && parts[0] != []
    ensures Join(parts, sep) != []
  {
  }

  /** Otherwise the lines of the result are exactly one `\item` line per
      item, in order. */
  lemma FormatBulletsLines(text: string)
    requires !AllSpace(text)
    ensures Split(FormatBullets(text), '\n') == ItemLines(BulletItems(text))
    ensures |Split(FormatBullets(text), '\n')| == |BulletItems(text)|
  {
    ItemsEmpty(text);
    var lines := ItemLines(BulletItems(text));
    ItemLinesSingle(BulletItems(text));
    assert FormatBullets(text) == Join(lines, "\n");
    SplitJoin(lines, '\n');
  }

  /** Item lines hold no line feed. */
  lemma ItemLinesSingle(items: seq<string>)
    requires forall i :: 0 <= i < |items| ==> '\n' !in items[i]
    ensures forall i :: 0 <= i < |ItemLines(items)| ==> '\n' !in ItemLines(items)[i]
  {
    forall i | 0 <= i < |items| ensures '\n' !in ItemLine(items[i]) {
      EscapeLatexNewlines(items[i]);
    }
  }

  /** Items keep input order: the text before a line feed contributes its
      items ahead of the text after it. */
  lemma ItemsAppendLine(a: string, b: string)
    ensures BulletItems(a + "\n" + b) == BulletItems(a) + BulletItems(b)
  {
    ItemsIgnoreCR(a + "\n" + b);
    ItemsIgnoreCR(a);
    ItemsIgnoreCR(b);
    SplitAppend(a, b, '\n');
    TrimNonEmptyAppend(Split(a, '\n'), Split(b, '\n'));
  }

  /** Text without a line feed is a single line. */
  lemma ItemsOneLine(x: string)
    requires '\n' !in x
    ensures BulletItems(x) == if Trim(x) == [] then [] else [Trim(x)]
  {
    ItemsIgnoreCR(x);
    SplitNoSeparator(x, '\n');
    TrimNonEmptySingle(x);
  }

  /** The first line of a text contributes its trimmed self, when not
      blank, ahead of the items of the rest. */
  lemma ItemsCons(a: string, rest: string)
    requires '\n' !in a
    ensures BulletItems(a + "\n" + rest) == (if Trim(a) == [] then [] else [Trim(a)]) + BulletItems(rest)
  {
    ItemsAppendLine(a, rest);
    ItemsOneLine(a);
  }

  /** A line of spaces followed by a last line that is not blank yields
      that line, trimmed, as the only item. */
  lemma ItemsSpacesThenLine(spaces: string, e: string)
    requires AllSpace(spaces) && Trim(e) != []
    requires '\n' !in spaces && '\n' !in e
    ensures BulletItems(spaces + "\n" + e) == [Trim(e)]
  {
    TrimSlice(spaces);
    ItemsOneLine(e);
    ItemsCons(spaces, e);
  }

  /** An already trimmed, non-blank first line is the first item. */
  lemma ItemsTrimmedFirst(c: string, rest: string)
    requires c != [] && IsTrimmed(c) && '\n' !in c
    ensures BulletItems(c + "\n" + rest) == [c] + BulletItems(rest)
  {
    TrimTrimmed(c);
    ItemsCons(c, rest);
  }

  /** An empty first line yields no item. */
  lemma ItemsEmptyFirst(rest: string)
    ensures BulletItems([] + "\n" + rest) == BulletItems(rest)
  {
    TrimSlice([]);
    ItemsCons([], rest);
  }

  /** The last three lines of the text "A\n\nB\n  \n C ": an empty line
      and a line of spaces produce no item, and the last line is trimmed. */
  lemma ItemsExampleTail(c: string, spaces: string, e: string)
    requires c != [] && IsTrimmed(c) && AllSpace(spaces) && Trim(e) != []
    requires '\n' !in c && '\n' !in spaces && '\n' !in e
    ensures BulletItems([] + "\n" + (c + "\n" + (spaces + "\n" + e))) == [c, Trim(e)]
  {
    var r2 := spaces + "\n" + e;
    ItemsSpacesThenLine(spaces, e);
    ItemsTrimmedFirst(c, r2);
    ItemsEmptyFirst(c + "\n" + r2);
  }

  /** The shape of the whole text: three items remain. */
  lemma ItemsExampleShape(a: string, c: string, spaces: string, e: string)
    requires a != [] && IsTrimmed(a) && c != [] && IsTrimmed(c)
    requires AllSpace(spaces) && Trim(e) != []
    requires '\n' !in a && '\n' !in c && '\n' !in spaces && '\n' !in e
    ensures BulletItems(a + "\n" + ([] + "\n" + (c + "\n" + (spaces + "\n" + e)))) == [a, c, Trim(e)]
  {
    var r0 := [] + "\n" + (c + "\n" + (spaces + "\n" + e));
    ItemsExampleTail(c, spaces, e);
    ItemsTrimmedFirst(a, r0);
  }

  /** The text "A\n\nB\n  \n C " yields the three items A, B and C: the
      empty line and the line of spaces are dropped, and the padding around
      C is trimmed. */
  lemma BulletsExample(A: char, B: char, C: char, sp: char)
    requires A == 'A' && B == 'B' && C == 'C' && sp == ' '
    ensures BulletItems([A] + "\n" + ([] + "\n" + ([B] + "\n" + ([sp, sp] + "\n" + [sp, C, sp])))) == [[A], [B], [C]]
  {
    TrimPadded(sp, C);
    ItemsExampleShape([A], [B], [sp, sp], [sp, C, sp]);
  }

  lemma TrimPadded(sp: char, c: char)
    requires IsSpace(sp) && !IsSpace(c)
    ensures Trim([sp, c, sp]) == [c]
  {
    assert [sp, c, sp][1..] == [c, sp];
    assert TrimStart([sp, c, sp]) == [c, sp];
    assert [c, sp][..1] == [c];
    assert TrimEnd([c]) == [c];
  }
}
