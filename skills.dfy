/** The skills table of buildLatex (src/utils/latex.ts:207-247): the skills
    string is cut into categories at `|`, each category into a label and
    comma-separated tokens at its first `:`, and the tokens are laid out
    four to a line. */
module Skills {
  import opened Wrappers
  import opened Text
  import opened Escape

  /** maxPerLine: the number of tokens per chunk. */
  const MaxPerLine := 4

  const SkillsHeader := @"\begin{rSection}{Skills and Interests}"
  const TabularBegin := @"\begin{tabular}{ @{} >{\bfseries}l @{\hspace{6ex}} l }"
  const TabularEnd := @"\end{tabular}"
  const SectionEnd := @"\end{rSection}"

  /** data.skills.split("|").map(trim).filter(Boolean). */
  function Categories(skills: string): (cats: seq<string>)
    ensures forall i :: 0 <= i < |cats| ==> cats[i] != [] && IsTrimmed(cats[i]) && '|' !in cats[i]
  {
    TrimNonEmptyKeeps(Split(skills, '|'), '|');
    TrimNonEmpty(Split(skills, '|'))
  }

  /** A category that yields a row: its label and its tokens. */
  datatype Category = Category(title: string, tokens: seq<string>)

  /** skillList.split(",").map(trim).filter(Boolean). */
  function Tokens(list: string): seq<string>
  {
    TrimNonEmpty(Split(list, ','))
  }

  /** Every token is non-empty, trimmed and free of commas. */
  lemma TokensShape(list: string)
    ensures forall i :: 0 <= i < |Tokens(list)| ==>
      Tokens(list)[i] != [] && IsTrimmed(Tokens(list)[i]) && ',' !in Tokens(list)[i]
  {
    TrimNonEmptyKeeps(Split(list, ','), ',');
  }

  /** A category is split at its first colon when that colon is not its
      first character: the trimmed text before it is the label, the trimmed
      text after it holds the tokens. Otherwise the category yields no row. */
  function ParseCategory(cat: string): Option<Category>
  {
    var k := IndexOf(cat, ':');
    if k > 0 then Some(Category(Trim(cat[..k]), Tokens(Trim(cat[k + 1..])))) else None
  }

  /** A category yields no row exactly when it has no colon or starts with
      one; otherwise its title is the trimmed text before the first colon,
      which holds no colon, and its tokens come from the text after it. */
  lemma ParseCategoryCases(cat: string)
    ensures ParseCategory(cat).None? <==> ':' !in cat || cat[0] == ':'
    ensures ParseCategory(cat).Some? ==>
      var k := IndexOf(cat, ':');
      0 < k && cat[k] == ':' && ':' !in cat[..k] &&
      ParseCategory(cat).value.title == Trim(cat[..k]) &&
      ':' !in ParseCategory(cat).value.title && IsTrimmed(ParseCategory(cat).value.title) &&
      ParseCategory(cat).value.tokens == Tokens(Trim(cat[k + 1..]))
  {
    var k := IndexOf(cat, ':');
    if k > 0 {
      TrimKeeps(cat[..k], ':');
    }
  }

  /** skills.slice(j, j + maxPerLine): at most four tokens from index j. */
  function Chunk(tokens: seq<string>, j: nat): seq<string>
    requires j <= |tokens|
  {
    tokens[j..Min(j + MaxPerLine, |tokens|)]
  }

  /** The first part of a row: the label, an ampersand and the first chunk. */
  function FirstPart(c: Category): string
  {
    EscapeLatex(c.title) + " & " + EscapeLatex(Join(Chunk(c.tokens, 0), ", "))
  }

  /** The part for the chunk that starts at index j > 0. */
  function ContinuationPart(tokens: seq<string>, j: nat): string
    requires j <= |tokens|
  {
    @" \\& " + EscapeLatex(Join(Chunk(tokens, j), ", "))
  }

  /** The parts for the chunks that start at j, j + 4, ... */
  function ContinuationParts(tokens: seq<string>, j: nat): seq<string>
    decreases |tokens| - j
  {
    if j >= |tokens| then [] else [ContinuationPart(tokens, j)] + ContinuationParts(tokens, j + MaxPerLine)
  }

  /** lineParts once the chunk loop has finished. */
  function RowParts(c: Category): seq<string>
  {
    [FirstPart(c)] + ContinuationParts(c.tokens, MaxPerLine)
  }

  /** The row line of a category: its parts joined by spaces, then `\\`. */
  function SkillRow(c: Category): string
  {
    Join(RowParts(c), " ") + @"\\"
  }

  /** Builds the row of a category the way the source does: the first part,
      then one part per further chunk, pushed in a loop that steps through
      the tokens four at a time. */
  method RenderRow(c: Category) returns (line: string)
    ensures line == SkillRow(c)
  {
    var lineParts := [FirstPart(c)];
    var j := MaxPerLine;
    while j < |c.tokens|
      invariant lineParts + ContinuationParts(c.tokens, j) == RowParts(c)
      decreases |c.tokens| - j
    {
      lineParts := lineParts + [ContinuationPart(c.tokens, j)];
      j := j + MaxPerLine;
    }
    assert ContinuationParts(c.tokens, j) == [];
    assert lineParts + [] == lineParts;
    line := Join(lineParts, " ") + @"\\";
  }

  /** The chunks that start at j, j + 4, ... */
  function Chunks(tokens: seq<string>, j: nat): seq<seq<string>>
    decreases |tokens| - j
  {
    if j >= |tokens| then [] else [Chunk(tokens, j)] + Chunks(tokens, j + MaxPerLine)
  }

  /** The chunks partition the tokens in order: concatenated they give the
      tokens back, each holds one to four tokens, and every chunk but the
      last holds exactly four. There are ⌈n/4⌉ of them for n tokens left. */
  lemma {:induction false} ChunksPartition(tokens: seq<string>, j: nat)
    requires j <= |tokens|
    ensures Flatten(Chunks(tokens, j)) == tokens[j..]
    ensures |Chunks(tokens, j)| == (|tokens| - j + 3) / 4
    ensures forall i :: 0 <= i < |Chunks(tokens, j)| ==> 1 <= |Chunks(tokens, j)[i]| <= MaxPerLine
    ensures forall i :: 0 <= i < |Chunks(tokens, j)| - 1 ==> |Chunks(tokens, j)[i]| == MaxPerLine
    decreases |tokens| - j
  {
    if j < |tokens| {
      var next := Min(j + MaxPerLine, |tokens|);
      ChunksPartition(tokens, next);
      if j + MaxPerLine < |tokens| {
        assert Chunks(tokens, j) == [Chunk(tokens, j)] + Chunks(tokens, next);
      } else {
        assert Chunks(tokens, next) == [];
        assert Chunks(tokens, j) == [Chunk(tokens, j)];
      }
      var cs := Chunks(tokens, j);
      assert cs[1..] == Chunks(tokens, next);
      assert tokens[j..] == tokens[j..next] + tokens[next..];
      assert forall i :: 1 <= i < |cs| ==> cs[i] == Chunks(tokens, next)[i - 1];
    }
  }

  /** Each continuation part stands for one chunk. */
  lemma {:induction false} ContinuationPartsChunks(tokens: seq<string>, j: nat)
    requires j <= |tokens|
    ensures |ContinuationParts(tokens, j)| == |Chunks(tokens, j)|
    ensures forall i :: 0 <= i < |Chunks(tokens, j)| ==>
      ContinuationParts(tokens, j)[i] == @" \\& " + EscapeLatex(Join(Chunks(tokens, j)[i], ", "))
    decreases |tokens| - j
  {
    if j < |tokens| {
      var next := Min(j + MaxPerLine, |tokens|);
      ContinuationPartsChunks(tokens, next);
      if j + MaxPerLine >= |tokens| {
        assert ContinuationParts(tokens, j + MaxPerLine) == [];
        assert Chunks(tokens, j + MaxPerLine) == [];
      }
    }
  }

  /** A row has one part per chunk of four tokens, and at least one part:
      max(1, ⌈n/4⌉) for n tokens. */
  lemma RowPartsCount(c: Category)
    ensures |RowParts(c)| == Max(1, (|c.tokens| + 3) / 4)
  {
    var n := |c.tokens|;
    if n <= MaxPerLine {
      assert ContinuationParts(c.tokens, MaxPerLine) == [];
    } else {
      ChunksPartition(c.tokens, MaxPerLine);
      ContinuationPartsChunks(c.tokens, MaxPerLine);
    }
  }

  /** The row a category yields, if any. */
  function RowOf(cat: string): Option<string>
  {
    match ParseCategory(cat)
    case None => None
    case Some(c) => Some(SkillRow(c))
  }

  /** The row of every category, in order. */
  function RowOptions(cats: seq<string>): (rows: seq<Option<string>>)
    ensures |rows| == |cats|
  {
    if cats == [] then [] else [RowOf(cats[0])] + RowOptions(cats[1..])
  }

  lemma {:induction false} RowOptionsIndex(cats: seq<string>, i: nat)
    requires i < |cats|
    ensures RowOptions(cats)[i] == RowOf(cats[i])
  {
    if i > 0 {
      RowOptionsIndex(cats[1..], i - 1);
    }
  }

  /** The lines of the category at index i: its row, followed by a blank
      line unless the category is the last one. A category that yields no
      row contributes nothing. */
  function RowLines(rows: seq<Option<string>>, i: nat): seq<string>
    requires i < |rows|
  {
    match rows[i]
    case None => []
    case Some(r) => [r] + (if i < |rows| - 1 then [""] else [])
  }

  /** The lines of the categories before index n, in order. */
  function LinesUpTo(rows: seq<Option<string>>, n: nat): seq<string>
    requires n <= |rows|
  {
    if n == 0 then [] else LinesUpTo(rows, n - 1) + RowLines(rows, n - 1)
  }

  lemma LinesStep(rows: seq<Option<string>>, i: nat)
    requires i < |rows|
    ensures LinesUpTo(rows, i + 1) == LinesUpTo(rows, i) + RowLines(rows, i)
  {
  }

  /** The whole skills section. The table is opened and closed whether or
      not any category yields a row. */
  function SkillsBlock(skills: string): seq<string>
  {
    var rows := RowOptions(Categories(skills));
    Table(LinesUpTo(rows, |rows|))
  }

  /** The section around its row lines. */
  function Table(lines: seq<string>): seq<string>
  {
    [SkillsHeader, "", TabularBegin] + lines + [TabularEnd, "", SectionEnd, ""]
  }

  /** The rows present before index n, in order. */
  function Present(rows: seq<Option<string>>, n: nat): seq<string>
    requires n <= |rows|
  {
    if n == 0 then []
    else
      match rows[n - 1]
      case None => Present(rows, n - 1)
      case Some(r) => Present(rows, n - 1) + [r]
  }

  /** Every row is a non-empty line ending in `\`. */
  lemma RowNonEmpty(cat: string)
    ensures RowOf(cat).Some? ==> RowOf(cat).value != [] && RowOf(cat).value[|RowOf(cat).value| - 1] == '\\'
  {
  }

  predicate RowsNonEmpty(rows: seq<Option<string>>) {
    forall i :: 0 <= i < |rows| && rows[i].Some? ==> rows[i].value != []
  }

  lemma RowOptionsNonEmpty(cats: seq<string>)
    ensures RowsNonEmpty(RowOptions(cats))
  {
    var rows := RowOptions(cats);
    forall i | 0 <= i < |rows| && rows[i].Some? ensures rows[i].value != [] {
      RowOptionsIndex(cats, i);
      RowNonEmpty(cats[i]);
    }
  }

  /** Leaving the blank separators aside, the lines are the rows of the
      categories that yield one, in input order. */
  lemma {:induction false} RowsInOrder(rows: seq<Option<string>>, n: nat)
    requires n <= |rows| && RowsNonEmpty(rows)
    ensures NonEmpty(LinesUpTo(rows, n)) == Present(rows, n)
  {
    if n > 0 {
      RowsInOrder(rows, n - 1);
      match rows[n - 1]
      case None =>
        assert LinesUpTo(rows, n) == LinesUpTo(rows, n - 1) + [];
        assert LinesUpTo(rows, n - 1) + [] == LinesUpTo(rows, n - 1);
      case Some(r) =>
        var extra: seq<string> := if n - 1 < |rows| - 1 then [""] else [];
        assert NonEmpty(extra) == [];
        assert NonEmpty([r]) == [r] by { assert [r][1..] == []; }
        NonEmptyAppend([r], extra);
        NonEmptyAppend(LinesUpTo(rows, n - 1), [r] + extra);
    }
  }

  /** Every row but one in the last position is followed by exactly one
      blank line. */
  lemma {:induction false} RowsCount(rows: seq<Option<string>>, n: nat)
    requires n <= |rows|
    ensures |LinesUpTo(rows, n)| ==
      2 * |Present(rows, n)| - (if n == |rows| && n > 0 && rows[n - 1].Some? then 1 else 0)
  {
    if n > 0 {
      RowsCount(rows, n - 1);
    }
  }

  /** When no category yields a row there is nothing between the opening
      and the closing of the table. */
  lemma {:induction false} NoRows(rows: seq<Option<string>>, n: nat)
    requires n <= |rows|
    requires forall i :: 0 <= i < n ==> rows[i].None?
    ensures LinesUpTo(rows, n) == []
  {
    if n > 0 {
      NoRows(rows, n - 1);
    }
  }

  /** The table is opened and closed around the rows, whatever they are. */
  lemma TableFrame(lines: seq<string>)
    ensures |Table(lines)| == |lines| + 7
    ensures Table(lines)[2] == TabularBegin && Table(lines)[|lines| + 3] == TabularEnd
    ensures Table(lines)[3..|lines| + 3] == lines
  {
  }

  /** When no category has a colon past its first character the section is
      the bare table. */
  lemma SkillsWithoutRows(skills: string)
    requires forall i :: 0 <= i < |Categories(skills)| ==>
               ':' !in Categories(skills)[i] || Categories(skills)[i][0] == ':'
    ensures SkillsBlock(skills) == Table([])
  {
    var cats := Categories(skills);
    var rows := RowOptions(cats);
    forall i | 0 <= i < |rows| ensures rows[i].None? {
      RowOptionsIndex(cats, i);
      ParseCategoryCases(cats[i]);
    }
    NoRows(rows, |rows|);
  }

  /** The rows of the section are those of its categories, in order. */
  lemma SkillsRows(skills: string)
    ensures var rows := RowOptions(Categories(skills));
      NonEmpty(LinesUpTo(rows, |rows|)) == Present(rows, |rows|)
  {
    var rows := RowOptions(Categories(skills));
    RowOptionsNonEmpty(Categories(skills));
    RowsInOrder(rows, |rows|);
  }
}
