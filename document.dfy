/** Whole-document properties of buildLatex (src/utils/latex.ts:38-309):
    which lines delimit the document and its sections, in what order they
    come, and what the text starts and ends with. */
module Document {
  import opened Wrappers
  import opened Text
  import opened Escape
  import opened Bullets
  import opened Skills
  import opened Resume
  import opened Latex

  /** The lines that open or close the document body and those that open
      one of the five sections. */
  predicate IsLandmark(line: string) {
    line == BeginDocument || line == EndDocument || line == SummaryBegin || line == ProjectsBegin ||
    line == SkillsHeader || line == ExperienceBegin || line == EducationBegin
  }

  /** The landmark lines among `lines`, in order. */
  function Landmarks(lines: seq<string>): seq<string>
  {
    if lines == [] then []
    else (if IsLandmark(lines[0]) then [lines[0]] else []) + Landmarks(lines[1..])
  }

  /** The section openings, in the fixed order Summary,
      Projects, Skills and Interests, Experience, Education, each present
      exactly when its section has data. */
  function Headers(data: ResumeData): seq<string>
  {
    (if data.contact.headline != [] then [SummaryBegin] else []) +
    (if data.projects != [] then [ProjectsBegin] else []) +
    (if data.skills != [] then [SkillsHeader] else []) +
    (if data.experience != [] then [ExperienceBegin] else []) +
    (if data.education != [] then [EducationBegin] else [])
  }

  /** A line that does not start with `\b` or `\e`: no landmark is one. */
  predicate Plain(line: string) {
    |line| < 2 || line[0] != '\\' || (line[1] != 'b' && line[1] != 'e')
  }

  lemma {:induction false} LandmarksAppend(a: seq<string>, b: seq<string>)
    ensures Landmarks(a + b) == Landmarks(a) + Landmarks(b)
  {
    if a == [] {
      assert a + b == b;
    } else {
      assert (a + b)[1..] == a[1..] + b;
      LandmarksAppend(a[1..], b);
    }
  }

  lemma {:induction false} LandmarksNone(lines: seq<string>)
    requires forall i :: 0 <= i < |lines| ==> !IsLandmark(lines[i])
    ensures Landmarks(lines) == []
  {
    if lines != [] {
      LandmarksNone(lines[1..]);
    }
  }

  lemma PlainNotLandmark(line: string)
    requires Plain(line)
    ensures !IsLandmark(line)
  {
  }

  /** Escaped text never starts a landmark: a backslash at its head is
      followed by `t` or by an escaped character. */
  lemma EscapedPlain(s: string, rest: string)
    requires Plain(rest)
    ensures Plain(EscapeLatex(s) + rest)
  {
    EscapeLatexHead(s);
    var e := EscapeLatex(s);
    if |e| >= 2 {
      assert (e + rest)[..2] == e[..2];
    } else if |e| == 1 {
      assert (e + rest)[0] == e[0];
    } else {
      assert e + rest == rest;
    }
  }

  /** The fixed lines between and around entries are not landmarks. */
  lemma FixedLines()
    ensures !IsLandmark("") && !IsLandmark(SectionEnd) && !IsLandmark(SubsectionEnd)
    ensures !IsLandmark(TabularBegin) && !IsLandmark(TabularEnd) && !IsLandmark(@"\\")
  {
    assert SectionEnd[5] != EndDocument[5];
    assert SubsectionEnd[5] != EndDocument[5];
    assert TabularEnd[5] != EndDocument[5];
  }

  lemma LandmarksSingle(x: string)
    ensures Landmarks([x]) == if IsLandmark(x) then [x] else []
  {
    assert [x][1..] == [];
  }

  /** A line that starts with a macro other than `\begin` and `\end`. */
  lemma MacroLine(p: string, x: string, y: string)
    requires |p| >= 2 && Plain(p)
    ensures !IsLandmark(p + x + y)
  {
    assert (p + x + y)[0] == p[0] && (p + x + y)[1] == p[1];
    PlainNotLandmark(p + x + y);
  }

  lemma OpenBody()
    ensures Landmarks(["", BeginDocument, ""]) == [BeginDocument]
  {
    assert ["", BeginDocument, ""] == [""] + [BeginDocument] + [""];
    LandmarksAppend([""] + [BeginDocument], [""]);
    LandmarksAppend([""], [BeginDocument]);
    LandmarksSingle("");
    LandmarksSingle(BeginDocument);
  }

  lemma NameLandmarks(c: Contact)
    ensures Landmarks([NameLine(c)]) == []
  {
    MacroLine(@"\name{", EscapeLatex(Or(c.fullName, "Your Name")), "}");
    LandmarksSingle(NameLine(c));
  }

  lemma LocationLandmarks(c: Contact)
    ensures Landmarks(LocationLines(c)) == []
  {
    if c.location != [] {
      MacroLine(@"\address{", EscapeLatex(c.location), "}");
      LandmarksSingle(AddressLine(EscapeLatex(c.location)));
    }
  }

  lemma ReachLandmarks(c: Contact)
    ensures Landmarks(ReachLines(c)) == []
  {
    if ContactParts(c) != [] {
      MacroLine(@"\address{", Join(ContactParts(c), @" \\"), "}");
      LandmarksSingle(AddressLine(Join(ContactParts(c), @" \\")));
    }
  }

  /** The contact block holds one landmark, `\begin{document}`. */
  lemma ContactLandmarks(c: Contact)
    ensures Landmarks(ContactLines(c)) == [BeginDocument]
  {
    NameLandmarks(c);
    LocationLandmarks(c);
    ReachLandmarks(c);
    OpenBody();
    var name, location, reach := [NameLine(c)], LocationLines(c), ReachLines(c);
    LandmarksAppend(name, location);
    LandmarksAppend(name + location, reach);
    LandmarksAppend(name + location + reach, ["", BeginDocument, ""]);
  }

  /** A landmark followed by lines that hold none. */
  lemma {:induction false} HeadThen(h: string, rest: seq<string>)
    requires IsLandmark(h) && NoLandmark(rest)
    ensures Landmarks([h] + rest) == [h]
  {
    assert ([h] + rest)[1..] == rest;
    LandmarksNone(rest);
  }

  lemma SummaryRest(text: string)
    requires !IsLandmark(text)
    ensures NoLandmark(["", text, "", SectionEnd, ""])
  {
    FixedLines();
  }

  lemma SummaryLandmarks(c: Contact)
    ensures Landmarks(SummaryLines(c)) == if c.headline != [] then [SummaryBegin] else []
  {
    if c.headline != [] {
      var text := EscapeLatex(c.headline);
      EscapedPlain(c.headline, []);
      assert text + [] == text;
      PlainNotLandmark(text);
      SummaryRest(text);
      assert SummaryLines(c) == [SummaryBegin] + ["", text, "", SectionEnd, ""];
      HeadThen(SummaryBegin, ["", text, "", SectionEnd, ""]);
    }
  }

  /** A bullet block starts with `\item`, so it is not a landmark. */
  lemma BulletsLandmarks(text: string)
    ensures Landmarks(BulletsLines(text)) == []
  {
    var bullets := FormatBullets(text);
    if bullets != [] {
      var lines := ItemLines(BulletItems(text));
      JoinFirst(lines, "\n");
      ItemNotLandmark(bullets, lines[0], EscapeLatex(BulletItems(text)[0]));
      LandmarksSingle(bullets);
    }
  }

  lemma ItemNotLandmark(bullets: string, first: string, item: string)
    requires first == @"\item " + item
    requires |bullets| >= |first| && bullets[..|first|] == first
    ensures !IsLandmark(bullets)
  {
    assert bullets[0] == first[0] && bullets[1] == first[1];
    PlainNotLandmark(bullets);
  }

  /** The end of an entry. */
  lemma CloseEntry()
    ensures Landmarks([SubsectionEnd, ""]) == []
  {
    FixedLines();
    LandmarksNone([SubsectionEnd, ""]);
  }

  lemma SubsectionNotLandmark(a: string, b: string, c: string)
    ensures Landmarks([SubsectionBegin(a, b, c)]) == []
  {
    var line := SubsectionBegin(a, b, c);
    assert line[9] == 'u';
    LandmarksSingle(line);
  }

  /** An entry of the Projects section holds no landmark. */
  lemma ProjectLandmarks(p: Project)
    ensures Landmarks(ProjectLines(p)) == []
  {
    var name := if p.name != [] then EscapeLatex(p.name) else "Project";
    SubsectionNotLandmark(name, EscapeLatex(DateText(p.startDate, p.endDate)), EscapeLatex(Or(p.title, "Project")));
    BulletsLandmarks(p.description);
    CloseEntry();
    LandmarksAppend([ProjectHeader(p)], BulletsLines(p.description));
    LandmarksAppend([ProjectHeader(p)] + BulletsLines(p.description), [SubsectionEnd, ""]);
  }

  /** An entry of the Experience section holds no landmark. */
  lemma ExperienceLandmarks(e: Experience)
    ensures Landmarks(ExperienceLines(e)) == []
  {
    var company := if e.company != [] then EscapeLatex(e.company) else "Company";
    SubsectionNotLandmark(company, EscapeLatex(DateText(e.startDate, e.endDate)), TitleWithLocation(e));
    BulletsLandmarks(e.bullets);
    CloseEntry();
    LandmarksAppend([ExperienceHeader(e)], BulletsLines(e.bullets));
    LandmarksAppend([ExperienceHeader(e)] + BulletsLines(e.bullets), [SubsectionEnd, ""]);
  }

  /** The degree-and-dates line starts with `{\bf` or with a space. */
  lemma DegreeLine(ed: Education)
    ensures !IsLandmark(Degree(ed) + @" \hfill " + DateColumn(ed) + @" \\")
  {
    var line := Degree(ed) + @" \hfill " + DateColumn(ed) + @" \\";
    if Degree(ed) == [] {
      assert line[0] == ' ';
    } else {
      assert line[0] == '{';
    }
    PlainNotLandmark(line);
  }

  /** Escaped text is not a landmark. */
  lemma EscapedNotLandmark(s: string)
    ensures !IsLandmark(EscapeLatex(s))
  {
    EscapedPlain(s, []);
    assert EscapeLatex(s) + [] == EscapeLatex(s);
    PlainNotLandmark(EscapeLatex(s));
  }

  lemma DegreePiece(ed: Education)
    ensures NoLandmark(if Degree(ed) != [] || DateColumn(ed) != [] then [Degree(ed) + @" \hfill " + DateColumn(ed) + @" \\"] else [])
  {
    DegreeLine(ed);
  }

  lemma SchoolPiece(school: string)
    ensures NoLandmark(if school != [] then [EscapeLatex(school), @"\\"] else [])
  {
    if school != [] {
      EscapedNotLandmark(school);
      FixedLines();
      NoLandmarkPair(EscapeLatex(school), @"\\");
    }
  }

  lemma NoLandmarkPair(a: string, b: string)
    requires !IsLandmark(a) && !IsLandmark(b)
    ensures NoLandmark([a, b])
  {
  }

  lemma LocationPiece(location: string)
    ensures NoLandmark(if location != [] then [EscapeLatex(location)] else [])
  {
    EscapedNotLandmark(location);
  }

  /** An entry of the Education section holds no landmark. */
  lemma EducationLandmarks(ed: Education)
    ensures Landmarks(EducationLines(ed)) == []
  {
    var degree, dateStr := Degree(ed), DateColumn(ed);
    var header := if degree != [] || dateStr != [] then [degree + @" \hfill " + dateStr + @" \\"] else [];
    var school := if ed.school != [] then [EscapeLatex(ed.school), @"\\"] else [];
    var location := if ed.location != [] then [EscapeLatex(ed.location)] else [];
    DegreePiece(ed);
    SchoolPiece(ed.school);
    LocationPiece(ed.location);
    FixedLines();
    NoLandmarkAppend(header, school);
    NoLandmarkAppend(header + school, location);
    NoLandmarkAppend(header + school + location, [""]);
    LandmarksNone(EducationLines(ed));
  }

  /** The entries of a section hold no landmark when no entry does. */
  lemma {:induction false} EntriesLandmarks<T>(xs: seq<T>, render: T -> seq<string>, n: nat)
    requires n <= |xs|
    requires forall i :: 0 <= i < |xs| ==> Landmarks(render(xs[i])) == []
    ensures Landmarks(Entries(xs, render, n)) == []
  {
    if n > 0 {
      EntriesLandmarks(xs, render, n - 1);
      LandmarksAppend(Entries(xs, render, n - 1), render(xs[n - 1]));
    }
  }

  /** A section of entries contributes its header and nothing else. */
  lemma SectionLandmarks<T>(header: string, xs: seq<T>, render: T -> seq<string>)
    requires IsLandmark(header)
    requires forall i :: 0 <= i < |xs| ==> Landmarks(render(xs[i])) == []
    ensures Landmarks(Section(header, xs, render)) == if xs == [] then [] else [header]
  {
    if xs != [] {
      var entries := Entries(xs, render, |xs|);
      EntriesLandmarks(xs, render, |xs|);
      FixedLines();
      LandmarksNone([SectionEnd, ""]);
      LandmarksAppend([header], [""]);
      LandmarksSingle(header);
      LandmarksSingle("");
      assert [header, ""] == [header] + [""];
      LandmarksAppend([header, ""], entries);
      LandmarksAppend([header, ""] + entries, [SectionEnd, ""]);
    }
  }

  /** A line that begins with a plain line of two or more characters is
      plain. */
  lemma PlainPrefix(line: string, p: string)
    requires |p| >= 2 && Plain(p)
    requires |line| >= |p| && line[..|p|] == p
    ensures Plain(line)
  {
    assert line[0] == p[0] && line[1] == p[1];
  }

  /** The first part of a row is the escaped title followed by ` & `. */
  lemma FirstPartPlain(c: Category)
    ensures |FirstPart(c)| >= 2 && Plain(FirstPart(c))
  {
    var rest := " & " + EscapeLatex(Join(Chunk(c.tokens, 0), ", "));
    EscapedPlain(c.title, rest);
    assert FirstPart(c) == EscapeLatex(c.title) + rest;
  }

  /** Every skills row starts with its first part, so it is not a
      landmark. */
  lemma SkillRowNotLandmark(c: Category)
    ensures !IsLandmark(SkillRow(c))
  {
    var parts := RowParts(c);
    JoinFirst(parts, " ");
    FirstPartPlain(c);
    var joined := Join(parts, " ");
    assert SkillRow(c)[..|joined|] == joined;
    PlainPrefix(SkillRow(c), FirstPart(c));
    PlainNotLandmark(SkillRow(c));
  }

  lemma RowNotLandmark(cat: string)
    requires RowOf(cat).Some?
    ensures !IsLandmark(RowOf(cat).value)
  {
    SkillRowNotLandmark(ParseCategory(cat).value);
  }

  /** No line of `lines` is a landmark. */
  predicate NoLandmark(lines: seq<string>) {
    forall j :: 0 <= j < |lines| ==> !IsLandmark(lines[j])
  }

  lemma NoLandmarkAppend(a: seq<string>, b: seq<string>)
    requires NoLandmark(a) && NoLandmark(b)
    ensures NoLandmark(a + b)
  {
    forall j | 0 <= j < |a + b| ensures !IsLandmark((a + b)[j]) {
      if j >= |a| {
        assert (a + b)[j] == b[j - |a|];
      }
    }
  }

  lemma RowLinesNone(rows: seq<Option<string>>, i: nat)
    requires i < |rows|
    requires rows[i].Some? ==> !IsLandmark(rows[i].value)
    ensures NoLandmark(RowLines(rows, i))
  {
    FixedLines();
  }

  /** Every line of `lines` satisfies `p`. */
  predicate All(lines: seq<string>, p: string -> bool) {
    forall j :: 0 <= j < |lines| ==> p(lines[j])
  }

  lemma AllAppend(a: seq<string>, b: seq<string>, p: string -> bool)
    requires All(a, p) && All(b, p)
    ensures All(a + b, p)
  {
    forall j | 0 <= j < |a + b| ensures p((a + b)[j]) {
      if j >= |a| {
        assert (a + b)[j] == b[j - |a|];
      }
    }
  }

  /** The row lines satisfy a property of lines when the lines of every
      single category do. */
  lemma {:induction false} RowLinesAll(rows: seq<Option<string>>, n: nat, p: string -> bool)
    requires n <= |rows|
    requires forall i :: 0 <= i < |rows| ==> All(RowLines(rows, i), p)
    ensures All(LinesUpTo(rows, n), p)
  {
    if n > 0 {
      RowLinesAll(rows, n - 1, p);
      AllAppend(LinesUpTo(rows, n - 1), RowLines(rows, n - 1), p);
    }
  }

  /** The skills section contributes its header and nothing else. */
  lemma SkillsLandmarks(skills: string)
    ensures Landmarks(SkillsSection(skills)) == if skills != [] then [SkillsHeader] else []
  {
    if skills != [] {
      var cats := Categories(skills);
      var rows := RowOptions(cats);
      var plain := (line: string) => !IsLandmark(line);
      forall i | 0 <= i < |rows| ensures All(RowLines(rows, i), plain) {
        RowOptionsIndex(cats, i);
        if rows[i].Some? {
          RowNotLandmark(cats[i]);
        }
        RowLinesNone(rows, i);
      }
      var lines := LinesUpTo(rows, |rows|);
      RowLinesAll(rows, |rows|, plain);
      assert NoLandmark(lines);
      LandmarksNone(lines);
      TableLandmarks(lines);
    }
  }

  lemma TableLandmarks(lines: seq<string>)
    requires Landmarks(lines) == []
    ensures Landmarks(Table(lines)) == [SkillsHeader]
  {
    var open, close := [SkillsHeader, "", TabularBegin], [TabularEnd, "", SectionEnd, ""];
    FixedLines();
    LandmarksNone(close);
    LandmarksNone(["", TabularBegin]);
    LandmarksSingle(SkillsHeader);
    assert open == [SkillsHeader] + ["", TabularBegin];
    LandmarksAppend([SkillsHeader], ["", TabularBegin]);
    LandmarksAppend(open, lines);
    LandmarksAppend(open + lines, close);
  }

  lemma {:induction false} LandmarksSeven(a: seq<string>, b: seq<string>, c: seq<string>, d: seq<string>, e: seq<string>, f: seq<string>, g: seq<string>)
    ensures Landmarks(a + b + c + d + e + f + g) ==
      Landmarks(a) + Landmarks(b) + Landmarks(c) + Landmarks(d) + Landmarks(e) + Landmarks(f) + Landmarks(g)
  {
    LandmarksAppend(a, b);
    LandmarksAppend(a + b, c);
    LandmarksAppend(a + b + c, d);
    LandmarksAppend(a + b + c + d, e);
    LandmarksAppend(a + b + c + d + e, f);
    LandmarksAppend(a + b + c + d + e + f, g);
  }

  lemma Regroup(x: seq<string>, s: seq<string>, p: seq<string>, k: seq<string>, e: seq<string>, d: seq<string>, y: seq<string>)
    ensures x + s + p + k + e + d + y == x + (s + p + k + e + d) + y
  {
  }

  /** No line of the preamble blocks for packages and the name and address macros is a landmark. */
  lemma PackageBlocks()
    ensures NoLandmark(PackageLines)
    ensures NoLandmark(NameMacroLines)
    ensures NoLandmark(AddressMacroLines)
  {
  }

  /** No line of the preamble blocks for printing and the document hook is a landmark. */
  lemma PrintBlocks()
    ensures NoLandmark(PrintAddressLines)
    ensures NoLandmark(PrintNameLines)
    ensures NoLandmark(DocumentHookLines)
  {
  }

  /** No line of the preamble blocks for the environments and the spacing is a landmark. */
  lemma EnvironmentBlocks()
    ensures NoLandmark(SectionEnvLines)
    ensures NoLandmark(SubsectionEnvLines)
    ensures NoLandmark(SpacingLines)
  {
  }

  /** The preamble holds no landmark: none of its lines opens the document
      body or a section. */
  lemma PreambleLandmarks()
    ensures Landmarks(Preamble) == []
  {
    PackageBlocks();
    PrintBlocks();
    EnvironmentBlocks();
    LandmarksDistinct();
    assert NoLandmark([DocumentClass]);
    NoLandmarkAppend([DocumentClass], PackageLines);
    NoLandmarkAppend([DocumentClass] + PackageLines, NameMacroLines);
    NoLandmarkAppend([DocumentClass] + PackageLines + NameMacroLines, AddressMacroLines);
    NoLandmarkAppend([DocumentClass] + PackageLines + NameMacroLines + AddressMacroLines, PrintAddressLines);
    NoLandmarkAppend([DocumentClass] + PackageLines + NameMacroLines + AddressMacroLines + PrintAddressLines, PrintNameLines);
    NoLandmarkAppend([DocumentClass] + PackageLines + NameMacroLines + AddressMacroLines + PrintAddressLines + PrintNameLines, DocumentHookLines);
    NoLandmarkAppend([DocumentClass] + PackageLines + NameMacroLines + AddressMacroLines + PrintAddressLines + PrintNameLines + DocumentHookLines, SectionEnvLines);
    NoLandmarkAppend([DocumentClass] + PackageLines + NameMacroLines + AddressMacroLines + PrintAddressLines + PrintNameLines + DocumentHookLines + SectionEnvLines, SubsectionEnvLines);
    NoLandmarkAppend([DocumentClass] + PackageLines + NameMacroLines + AddressMacroLines + PrintAddressLines + PrintNameLines + DocumentHookLines + SectionEnvLines + SubsectionEnvLines, SpacingLines);
    assert Preamble == [DocumentClass] + PackageLines + NameMacroLines + AddressMacroLines + PrintAddressLines + PrintNameLines + DocumentHookLines + SectionEnvLines + SubsectionEnvLines + SpacingLines;
    LandmarksNone(Preamble);
  }

  /** The body opens the document, then opens the sections that have data
      in the fixed order Summary, Projects, Skills and Interests,
      Experience, Education, each once, then closes the document; no other
      line of the body is one of these landmarks. */
  lemma BodyLandmarks(data: ResumeData)
    ensures Landmarks(Body(data)) == [BeginDocument] + Headers(data) + [EndDocument]
  {
    var c := data.contact;
    ContactLandmarks(c);
    SummaryLandmarks(c);
    ProjectsLandmarks(data.projects);
    ExperiencesLandmarks(data.experience);
    EducationsLandmarks(data.education);
    SkillsLandmarks(data.skills);
    LandmarksSingle(EndDocument);
    LandmarksSeven(ContactLines(c), SummaryLines(c), Section(ProjectsBegin, data.projects, ProjectLines),
      SkillsSection(data.skills), Section(ExperienceBegin, data.experience, ExperienceLines),
      Section(EducationBegin, data.education, EducationLines), [EndDocument]);
    Regroup([BeginDocument], Landmarks(SummaryLines(c)), Landmarks(Section(ProjectsBegin, data.projects, ProjectLines)),
      Landmarks(SkillsSection(data.skills)), Landmarks(Section(ExperienceBegin, data.experience, ExperienceLines)),
      Landmarks(Section(EducationBegin, data.education, EducationLines)), [EndDocument]);
  }

  /** The Projects section holds its opening as its only landmark, and
      only when there are projects; likewise Experience and Education. */
  lemma ProjectsLandmarks(xs: seq<Project>)
    ensures Landmarks(Section(ProjectsBegin, xs, ProjectLines)) == if xs == [] then [] else [ProjectsBegin]
  {
    forall i | 0 <= i < |xs| ensures Landmarks(ProjectLines(xs[i])) == [] {
      ProjectLandmarks(xs[i]);
    }
    SectionLandmarks(ProjectsBegin, xs, ProjectLines);
  }

  lemma ExperiencesLandmarks(xs: seq<Experience>)
    ensures Landmarks(Section(ExperienceBegin, xs, ExperienceLines)) == if xs == [] then [] else [ExperienceBegin]
  {
    forall i | 0 <= i < |xs| ensures Landmarks(ExperienceLines(xs[i])) == [] {
      ExperienceLandmarks(xs[i]);
    }
    SectionLandmarks(ExperienceBegin, xs, ExperienceLines);
  }

  lemma EducationsLandmarks(xs: seq<Education>)
    ensures Landmarks(Section(EducationBegin, xs, EducationLines)) == if xs == [] then [] else [EducationBegin]
  {
    forall i | 0 <= i < |xs| ensures Landmarks(EducationLines(xs[i])) == [] {
      EducationLandmarks(xs[i]);
    }
    SectionLandmarks(EducationBegin, xs, EducationLines);
  }

  /** The five section openings and the two document landmarks are seven
      different lines. */
  lemma LandmarksDistinct()
    ensures |BeginDocument| == 16 && |EndDocument| == 14 && |SummaryBegin| == 25 && |ProjectsBegin| == 26
    ensures |SkillsHeader| == 38 && |ExperienceBegin| == 28 && |EducationBegin| == 27
  {
  }

  lemma InBetween(x: string, b: string, h: seq<string>, e: string)
    requires x != b && x != e
    ensures x in [b] + h + [e] <==> x in h
  {
  }

  /** The whole document: the preamble adds no landmark, so the landmarks
      of the generated lines are those of the body. */
  lemma DocumentLandmarks(data: ResumeData)
    ensures Landmarks(DocumentLines(data)) == [BeginDocument] + Headers(data) + [EndDocument]
  {
    PreambleLandmarks();
    BodyLandmarks(data);
    LandmarksAppend(Preamble, Body(data));
  }

  /** A landmark line occurs in `lines` as often as in their landmarks. */
  lemma {:induction false} LandmarkCount(lines: seq<string>, x: string)
    requires IsLandmark(x)
    ensures multiset(lines)[x] == multiset(Landmarks(lines))[x]
  {
    if lines != [] {
      LandmarkCount(lines[1..], x);
      assert lines == [lines[0]] + lines[1..];
      assert multiset(lines) == multiset([lines[0]]) + multiset(lines[1..]);
    }
  }

  /** `\begin{document}` is exactly one line of the generated document, and
      so is `\end{document}`. */
  lemma DocumentOnce(data: ResumeData)
    ensures multiset(DocumentLines(data))[BeginDocument] == 1
    ensures multiset(DocumentLines(data))[EndDocument] == 1
  {
    DocumentLandmarks(data);
    HeadersLandmarks(data);
    OnceFromLandmarks(DocumentLines(data), Headers(data));
  }

  lemma OnceFromLandmarks(lines: seq<string>, h: seq<string>)
    requires Landmarks(lines) == [BeginDocument] + h + [EndDocument]
    requires BeginDocument !in h && EndDocument !in h
    ensures multiset(lines)[BeginDocument] == 1 && multiset(lines)[EndDocument] == 1
  {
    LandmarksDistinct();
    LandmarkCount(lines, BeginDocument);
    LandmarkCount(lines, EndDocument);
    OnceBetween(BeginDocument, h, EndDocument);
  }

  /** The headers are section openings only. */
  lemma HeadersLandmarks(data: ResumeData)
    ensures BeginDocument !in Headers(data) && EndDocument !in Headers(data)
  {
    LandmarksDistinct();
    HeadersPresent(data);
    var s := if data.contact.headline != [] then [SummaryBegin] else [];
    var p := if data.projects != [] then [ProjectsBegin] else [];
    var k := if data.skills != [] then [SkillsHeader] else [];
    var x := if data.experience != [] then [ExperienceBegin] else [];
    var d := if data.education != [] then [EducationBegin] else [];
    InFive(BeginDocument, s, p, k, x, d);
    InFive(EndDocument, s, p, k, x, d);
  }

  lemma OnceBetween(b: string, h: seq<string>, e: string)
    requires b != e && b !in h && e !in h
    ensures multiset([b] + h + [e])[b] == 1 && multiset([b] + h + [e])[e] == 1
  {
    assert multiset([b] + h + [e]) == multiset([b]) + multiset(h) + multiset([e]);
  }

  lemma InFive(x: string, a: seq<string>, b: seq<string>, c: seq<string>, d: seq<string>, e: seq<string>)
    ensures x in a + b + c + d + e <==> x in a || x in b || x in c || x in d || x in e
  {
  }

  /** Each section opening is among the headers exactly when its section
      has data. */
  lemma HeadersPresent(data: ResumeData)
    ensures SummaryBegin in Headers(data) <==> data.contact.headline != []
    ensures ProjectsBegin in Headers(data) <==> data.projects != []
    ensures SkillsHeader in Headers(data) <==> data.skills != []
    ensures ExperienceBegin in Headers(data) <==> data.experience != []
    ensures EducationBegin in Headers(data) <==> data.education != []
  {
    LandmarksDistinct();
    var s := if data.contact.headline != [] then [SummaryBegin] else [];
    var p := if data.projects != [] then [ProjectsBegin] else [];
    var k := if data.skills != [] then [SkillsHeader] else [];
    var x := if data.experience != [] then [ExperienceBegin] else [];
    var d := if data.education != [] then [EducationBegin] else [];
    InFive(SummaryBegin, s, p, k, x, d);
    InFive(ProjectsBegin, s, p, k, x, d);
    InFive(SkillsHeader, s, p, k, x, d);
    InFive(ExperienceBegin, s, p, k, x, d);
    InFive(EducationBegin, s, p, k, x, d);
  }

  /** A section's opening line is in the body exactly when the section has
      data. */
  lemma SectionsPresent(data: ResumeData)
    ensures SummaryBegin in Landmarks(Body(data)) <==> data.contact.headline != []
    ensures ProjectsBegin in Landmarks(Body(data)) <==> data.projects != []
    ensures SkillsHeader in Landmarks(Body(data)) <==> data.skills != []
    ensures ExperienceBegin in Landmarks(Body(data)) <==> data.experience != []
    ensures EducationBegin in Landmarks(Body(data)) <==> data.education != []
  {
    BodyLandmarks(data);
    LandmarksDistinct();
    HeadersPresent(data);
    var h := Headers(data);
    InBetween(SummaryBegin, BeginDocument, h, EndDocument);
    InBetween(ProjectsBegin, BeginDocument, h, EndDocument);
    InBetween(SkillsHeader, BeginDocument, h, EndDocument);
    InBetween(ExperienceBegin, BeginDocument, h, EndDocument);
    InBetween(EducationBegin, BeginDocument, h, EndDocument);
  }

  /** A preamble that starts with the document class line and a body that
      ends with `\end{document}` join into text that does the same. */
  lemma JoinedStartsEnds(pre: seq<string>, body: seq<string>)
    requires |pre| >= 1 && pre[0] == DocumentClass
    requires |body| >= 1 && body[|body| - 1] == EndDocument
    ensures |Join(pre + body, "\n")| >= |DocumentClass| && Join(pre + body, "\n")[..|DocumentClass|] == DocumentClass
    ensures |Join(pre + body, "\n")| >= |EndDocument|
    ensures Join(pre + body, "\n")[|Join(pre + body, "\n")| - |EndDocument|..] == EndDocument
  {
    var lines := pre + body;
    assert lines[0] == pre[0] && lines[|lines| - 1] == body[|body| - 1];
    JoinFirst(lines, "\n");
    JoinLast(lines, "\n");
  }

  lemma PreambleStarts()
    ensures |Preamble| >= 1 && Preamble[0] == DocumentClass
  {
  }

  lemma BodyEnds(data: ResumeData)
    ensures |Body(data)| >= 1 && Body(data)[|Body(data)| - 1] == EndDocument
  {
  }

  /** The generated source starts with the document class line and ends
      with `\end{document}`. */
  lemma DocumentStartsEnds(data: ResumeData)
    ensures |LatexDocument(data)| >= |DocumentClass| && LatexDocument(data)[..|DocumentClass|] == DocumentClass
    ensures |LatexDocument(data)| >= |EndDocument|
    ensures LatexDocument(data)[|LatexDocument(data)| - |EndDocument|..] == EndDocument
  {
    PreambleStarts();
    BodyEnds(data);
    JoinedStartsEnds(Preamble, Body(data));
  }

  /** The link flags and the website and LinkedIn fields do not reach the
      generated source. */
  lemma LinksIgnored(data: ResumeData, website: string, linkedin: string)
    ensures LatexDocument(data.(contact := data.contact.(website := website, linkedin := linkedin))) == LatexDocument(data)
  {
    var c := data.contact;
    var c' := c.(website := website, linkedin := linkedin);
    assert ContactLines(c') == ContactLines(c);
    assert SummaryLines(c') == SummaryLines(c);
  }

  /** An empty snapshot yields the name line, the opening of the body and
      its closing, and nothing else. */
  lemma EmptySkeleton(c: Contact)
    requires c.headline == [] && c.location == [] && c.phone == [] && c.email == []
    ensures Body(ResumeData(c, [], [], [], [])) == [NameLine(c), "", BeginDocument, "", EndDocument]
  {
    var data := ResumeData(c, [], [], [], []);
    assert ContactLines(c) == [NameLine(c), "", BeginDocument, ""];
    EmptyMiddle(ContactLines(c), SummaryLines(c), Section(ProjectsBegin, data.projects, ProjectLines),
      SkillsSection(data.skills), Section(ExperienceBegin, data.experience, ExperienceLines),
      Section(EducationBegin, data.education, EducationLines), [EndDocument]);
  }

  lemma EmptyMiddle(a: seq<string>, s: seq<string>, p: seq<string>, k: seq<string>, e: seq<string>, d: seq<string>, z: seq<string>)
    requires s == p == k == e == d == []
    ensures a + s + p + k + e + d + z == a + z
  {
  }
}
