/** buildLatex (src/utils/latex.ts:38-309): the résumé snapshot becomes one
    LaTeX source text. The document is a fixed preamble, the contact block,
    then the Summary, Projects, Skills and Interests, Experience and
    Education sections, each only when it has data, and the end of the
    document. The generator never reads its configuration argument. */
module Latex {
  import opened Text
  import opened Escape
  import opened Bullets
  import opened Skills
  import opened Resume
  import opened Wrappers

  const DocumentClass := @"\documentclass[11pt,letterpaper]{article}"

  // The preamble lines after the document class: packages, page style and
  // the macros of the résumé class, kept as opaque constants in blocks.

  /** Packages and the page style. */
  const PackageLines: seq<string> := [
    @"",
    @"\usepackage[parfill]{parskip}",
    @"\usepackage{array}",
    @"\usepackage{ifthen}",
    @"\usepackage[left=0.4in,top=0.3in,right=0.4in,bottom=0.3in]{geometry}",
    @"",
    @"\pagestyle{empty}",
    @"",
    @"\makeatletter",
    @""
  ]

  /** The name macro and the address separator. */
  const NameMacroLines: seq<string> := [
    @"\def\name#1{\def\@name{#1}}",
    @"\def\@name{}",
    @"",
    @"\def\addressSep{$\diamond$}",
    @"",
    @"\let\@addressone\relax",
    @"\let\@addresstwo\relax",
    @"\let\@addressthree\relax",
    @""
  ]

  /** The address macro, which fills up to three address slots. */
  const AddressMacroLines: seq<string> := [
    @"\def\address#1{%",
    @"  \@ifundefined{@addresstwo}{%",
    @"    \def\@addresstwo{#1}%",
    @"  }{%",
    @"    \@ifundefined{@addressthree}{%",
    @"      \def\@addressthree{#1}%",
    @"    }{%",
    @"      \def\@addressone{#1}%",
    @"    }%",
    @"  }%",
    @"}",
    @""
  ]

  /** Printing one address line. */
  const PrintAddressLines: seq<string> := [
    @"\def\printaddress#1{%",
    @"  \begingroup",
    @"    \def\\{\addressSep\ }",
    @"    \centerline{#1}",
    @"  \endgroup",
    @"  \par",
    @"  \addressskip",
    @"}",
    @""
  ]

  /** Printing the name. */
  const PrintNameLines: seq<string> := [
    @"\def\printname{%",
    @"  \begingroup",
    @"    \hfil{\MakeUppercase{\namesize\bf\@name}}\hfil",
    @"    \nameskip\break",
    @"  \endgroup",
    @"}",
    @""
  ]

  /** The hook that prints the name and addresses when the document begins. */
  const DocumentHookLines: seq<string> := [
    @"\let\ori@document=\document",
    @"\renewcommand{\document}{%",
    @"  \ori@document",
    @"  \printname",
    @"  \@ifundefined{@addressone}{}{\printaddress{\@addressone}}",
    @"  \@ifundefined{@addresstwo}{}{\printaddress{\@addresstwo}}",
    @"  \@ifundefined{@addressthree}{}{\printaddress{\@addressthree}}",
    @"}",
    @""
  ]

  /** The rSection environment. */
  const SectionEnvLines: seq<string> := [
    @"\newenvironment{rSection}[1]{%",
    @"  \sectionskip",
    @"  \MakeUppercase{\bf#1}",
    @"  \sectionlineskip",
    @"  \hrule",
    @"  \begin{list}{}{\setlength{\leftmargin}{1.5em}}",
    @"  \item[]",
    @"}{%",
    @"  \end{list}",
    @"}",
    @""
  ]

  /** The rSubsection environment. */
  const SubsectionEnvLines: seq<string> := [
    @"\newenvironment{rSubsection}[4]{%",
    @"  {\bf#1}\hfill{#2}",
    @"  \ifthenelse{\equal{#3}{}}{}{\\{\em#3}\hfill{\em#4}}",
    @"  \smallskip",
    @"  \begin{list}{$\cdot$}{\leftmargin=0em}",
    @"    \itemsep-0.5em \vspace{-0.5em}",
    @"  }{%",
    @"  \end{list}",
    @"  \vspace{0.5em}",
    @"}",
    @""
  ]

  /** Sizes and skips. */
  const SpacingLines: seq<string> := [
    @"\def\namesize{\huge}",
    @"\def\addressskip{\smallskip}",
    @"\def\sectionlineskip{\medskip}",
    @"\def\nameskip{\bigskip}",
    @"\def\sectionskip{\medskip}",
    @"",
    @"\makeatother",
    @""
  ]

  /** The preamble after the document class, block by block. */
  const PreambleRest: seq<string> :=
    PackageLines + NameMacroLines + AddressMacroLines + PrintAddressLines + PrintNameLines +
    DocumentHookLines + SectionEnvLines + SubsectionEnvLines + SpacingLines

  const Preamble: seq<string> := [DocumentClass] + PreambleRest

  const BeginDocument := @"\begin{document}"
  const EndDocument := @"\end{document}"
  const SummaryBegin := @"\begin{rSection}{Summary}"
  const ProjectsBegin := @"\begin{rSection}{Projects}"
  const ExperienceBegin := @"\begin{rSection}{Experience}"
  const EducationBegin := @"\begin{rSection}{Education}"
  const SubsectionEnd := @"\end{rSubsection}"

  /** `x || fallback` for an optional string. */
  function Or(x: string, fallback: string): string
  {
    if x != [] then x else fallback
  }

  /** [start, end].filter(Boolean).join(" - "). */
  function DateText(start: string, end: string): string
  {
    Join(NonEmpty([start, end]), " - ")
  }

  function NameLine(c: Contact): string
  {
    @"\name{" + EscapeLatex(Or(c.fullName, "Your Name")) + "}"
  }

  function AddressLine(text: string): string
  {
    @"\address{" + text + "}"
  }

  /** The escaped phone and email, those that are present, phone first. */
  function ContactParts(c: Contact): seq<string>
  {
    (if c.phone != [] then [EscapeLatex(c.phone)] else []) +
    (if c.email != [] then [EscapeLatex(c.email)] else [])
  }

  /** The address line of the location, when there is one. */
  function LocationLines(c: Contact): seq<string>
  {
    if c.location != [] then [AddressLine(EscapeLatex(c.location))] else []
  }

  /** The address line of the phone and email, when there is either. */
  function ReachLines(c: Contact): seq<string>
  {
    if ContactParts(c) != [] then [AddressLine(Join(ContactParts(c), @" \\"))] else []
  }

  /** The contact block and the opening of the document body. */
  function ContactLines(c: Contact): seq<string>
  {
    [NameLine(c)] + LocationLines(c) + ReachLines(c) + ["", BeginDocument, ""]
  }

  function SummaryLines(c: Contact): seq<string>
  {
    if c.headline != [] then [SummaryBegin, "", EscapeLatex(c.headline), "", SectionEnd, ""] else []
  }

  /** The bullets of an entry, pushed as one (multi-line) element when
      formatBullets returns a non-empty string. */
  function BulletsLines(text: string): seq<string>
  {
    var bullets := FormatBullets(text);
    if bullets != [] then [bullets] else []
  }

  /** The header of an entry: `\begin{rSubsection}{a}{b}{c}{}`. */
  function SubsectionBegin(a: string, b: string, c: string): string
  {
    @"\begin{rSubsection}{" + a + "}{" + b + "}{" + c + "}{}"
  }

  function ProjectHeader(p: Project): string
  {
    var name := if p.name != [] then EscapeLatex(p.name) else "Project";
    SubsectionBegin(name, EscapeLatex(DateText(p.startDate, p.endDate)), EscapeLatex(Or(p.title, "Project")))
  }

  function ProjectLines(p: Project): seq<string>
  {
    [ProjectHeader(p)] + BulletsLines(p.description) + [SubsectionEnd, ""]
  }

  /** The title column of an experience entry. The location is escaped
      once when it is read and once more here. */
  function TitleWithLocation(e: Experience): string
  {
    var title := Or(e.title, "Position");
    var location := if e.location != [] then EscapeLatex(e.location) else "";
    if location != [] then EscapeLatex(title) + ", " + EscapeLatex(location) else EscapeLatex(title)
  }

  function ExperienceHeader(e: Experience): string
  {
    var company := if e.company != [] then EscapeLatex(e.company) else "Company";
    SubsectionBegin(company, EscapeLatex(DateText(e.startDate, e.endDate)), TitleWithLocation(e))
  }

  function ExperienceLines(e: Experience): seq<string>
  {
    [ExperienceHeader(e)] + BulletsLines(e.bullets) + [SubsectionEnd, ""]
  }

  function Degree(ed: Education): string
  {
    if ed.degree != [] then @"{\bf " + EscapeLatex(ed.degree) + "}" else ""
  }

  function DateColumn(ed: Education): string
  {
    var dates := DateText(ed.startDate, ed.endDate);
    if dates != [] then "{" + EscapeLatex(dates) + "}" else ""
  }

  function EducationLines(ed: Education): seq<string>
  {
    var degree, dateStr := Degree(ed), DateColumn(ed);
    (if degree != [] || dateStr != [] then [degree + @" \hfill " + dateStr + @" \\"] else []) +
    (if ed.school != [] then [EscapeLatex(ed.school), @"\\"] else []) +
    (if ed.location != [] then [EscapeLatex(ed.location)] else []) +
    [""]
  }

  /** The lines of the first n entries, each rendered by `render`, in
      order. */
  function Entries<T>(xs: seq<T>, render: T -> seq<string>, n: nat): seq<string>
    requires n <= |xs|
  {
    if n == 0 then [] else Entries(xs, render, n - 1) + render(xs[n - 1])
  }

  /** A section of entries: omitted when there are none. */
  function Section<T>(header: string, xs: seq<T>, render: T -> seq<string>): seq<string>
  {
    if xs == [] then [] else [header, ""] + Entries(xs, render, |xs|) + [SectionEnd, ""]
  }

  function SkillsSection(skills: string): seq<string>
  {
    if skills != [] then SkillsBlock(skills) else []
  }

  /** Everything after the preamble. */
  function Body(data: ResumeData): seq<string>
  {
    ContactLines(data.contact) +
    SummaryLines(data.contact) +
    Section(ProjectsBegin, data.projects, ProjectLines) +
    SkillsSection(data.skills) +
    Section(ExperienceBegin, data.experience, ExperienceLines) +
    Section(EducationBegin, data.education, EducationLines) +
    [EndDocument]
  }

  function DocumentLines(data: ResumeData): seq<string>
  {
    Preamble + Body(data)
  }

  /** The generated source: the lines joined by line feeds. */
  function LatexDocument(data: ResumeData): string
  {
    Join(DocumentLines(data), "\n")
  }

  /** The date text is both dates joined by " - " when both are given,
      otherwise the one that is given, otherwise empty. */
  lemma DateTextCases(start: string, end: string)
    ensures DateText(start, end) ==
      if start != [] && end != [] then start + " - " + end
      else if start != [] then start
      else end
    ensures DateText(start, end) == [] <==> start == [] && end == []
  {
    var parts := [start, end];
    assert parts[1..] == [end];
    assert [end][1..] == [];
    if start != [] && end != [] {
      assert NonEmpty(parts) == [start, end];
      assert Join([start, end], " - ") == start + " - " + Join([end], " - ");
    }
  }

  /** The contact block is the name line, an address line for the location
      when there is one, an address line for the phone and email when
      either is given, then a blank line, `\begin{document}` and a blank
      line. */
  lemma ContactShape(c: Contact)
    ensures |ContactLines(c)| ==
      4 + (if c.location != [] then 1 else 0) + (if c.phone != [] || c.email != [] then 1 else 0)
    ensures ContactLines(c)[0] == NameLine(c)
    ensures c.location != [] ==> ContactLines(c)[1] == @"\address{" + EscapeLatex(c.location) + "}"
    ensures ContactLines(c)[|ContactLines(c)| - 3..] == ["", BeginDocument, ""]
  {
    assert |ContactParts(c)| == (if c.phone != [] then 1 else 0) + (if c.email != [] then 1 else 0);
    assert |ReachLines(c)| == (if c.phone != [] || c.email != [] then 1 else 0);
    LinesAround(NameLine(c), LocationLines(c), ReachLines(c), ["", BeginDocument, ""]);
  }

  /** Where the parts of a block of lines sit within it. */
  lemma LinesAround(first: string, mid: seq<string>, rest: seq<string>, tail: seq<string>)
    ensures |[first] + mid + rest + tail| == 1 + |mid| + |rest| + |tail|
    ensures ([first] + mid + rest + tail)[0] == first
    ensures mid != [] ==> ([first] + mid + rest + tail)[1] == mid[0]
    ensures ([first] + mid + rest + tail)[|[first] + mid + rest + tail| - |tail|..] == tail
  {
  }

  /** With both a phone and an email, the second address line holds the
      phone first and the email second, separated by ` \\`. */
  lemma ReachOrder(c: Contact)
    requires c.phone != [] && c.email != []
    ensures ReachLines(c) == [AddressLine(EscapeLatex(c.phone) + @" \\" + EscapeLatex(c.email))]
  {
    var parts := [EscapeLatex(c.phone), EscapeLatex(c.email)];
    assert ContactParts(c) == parts;
    assert parts[1..] == [EscapeLatex(c.email)];
    assert Join(parts, @" \\") == parts[0] + @" \\" + Join(parts[1..], @" \\");
  }

  /** With only one of phone and email, the line holds that one alone. */
  lemma ReachSingle(c: Contact)
    requires (c.phone != []) != (c.email != [])
    ensures ReachLines(c) == [AddressLine(EscapeLatex(if c.phone != [] then c.phone else c.email))]
  {
  }

  /** Text without any of the ten special characters survives escaping
      unchanged; the defaults are such text. */
  lemma PlainWord(w: string)
    requires forall i :: 0 <= i < |w| ==> 'A' <= w[i] <= 'Z' || 'a' <= w[i] <= 'z' || w[i] == ' '
    ensures EscapeLatex(w) == w
  {
    EscapeLatexUnchanged(w);
  }

  /** A missing full name becomes "Your Name". */
  lemma NameDefault(c: Contact)
    requires c.fullName == []
    ensures NameLine(c) == @"\name{" + "Your Name" + "}"
  {
    assert Or(c.fullName, "Your Name") == "Your Name";
    PlainWord("Your Name");
  }

  /** A project without a name or title shows "Project" for both. */
  lemma ProjectDefaults(p: Project)
    requires p.name == [] && p.title == []
    ensures ProjectHeader(p) == SubsectionBegin("Project", EscapeLatex(DateText(p.startDate, p.endDate)), "Project")
  {
    assert Or(p.title, "Project") == "Project";
    PlainWord("Project");
  }

  /** An experience entry without company or title shows "Company" and
      "Position". */
  lemma ExperienceDefaults(e: Experience)
    requires e.company == [] && e.title == []
    ensures ExperienceHeader(e) ==
      SubsectionBegin("Company", EscapeLatex(DateText(e.startDate, e.endDate)),
        if e.location != [] then "Position" + ", " + EscapeLatex(EscapeLatex(e.location)) else "Position")
  {
    assert Or(e.title, "Position") == "Position";
    PlainWord("Position");
    EscapeLatexUnchanged(e.location);
  }

  /** The location of an experience entry is escaped twice: an ampersand
      comes out as `\textbackslash\{\}\&` rather than `\&`. */
  lemma LocationEscapedTwice(e: Experience, amp: char)
    requires amp == '&' && e.location == [amp]
    ensures TitleWithLocation(e) == EscapeLatex(Or(e.title, "Position")) + ", " + (@"\textbackslash\{\}" + @"\&")
  {
    EscapedTwice(amp);
  }

  /** A bullet block is pushed exactly when the text has a non-blank line,
      and it then holds one `\item` line per non-blank line, in order. */
  lemma BulletsShape(text: string)
    ensures BulletsLines(text) == [] <==> AllSpace(text)
    ensures !AllSpace(text) ==>
      |BulletsLines(text)| == 1 && Split(BulletsLines(text)[0], '\n') == ItemLines(BulletItems(text))
  {
    FormatBulletsEmpty(text);
    if !AllSpace(text) {
      FormatBulletsLines(text);
    }
  }

  /** An entry is its header, its bullets when there are any, then
      `\end{rSubsection}` and a blank line. */
  lemma ProjectShape(p: Project)
    ensures |ProjectLines(p)| == 3 + (if AllSpace(p.description) then 0 else 1)
    ensures ProjectLines(p)[0] == ProjectHeader(p)
    ensures ProjectLines(p)[|ProjectLines(p)| - 2..] == [SubsectionEnd, ""]
  {
    BulletsShape(p.description);
  }

  lemma ExperienceShape(e: Experience)
    ensures |ExperienceLines(e)| == 3 + (if AllSpace(e.bullets) then 0 else 1)
    ensures ExperienceLines(e)[0] == ExperienceHeader(e)
    ensures ExperienceLines(e)[|ExperienceLines(e)| - 2..] == [SubsectionEnd, ""]
  {
    BulletsShape(e.bullets);
  }

  /** The degree-and-dates line of an education entry appears exactly when
      the degree or one of the dates is given, and comes first; the escaped
      school and a `\\` line follow when the school is given, the escaped
      location when it is given, and a blank line closes the entry. */
  lemma EducationShape(ed: Education)
    ensures |EducationLines(ed)| ==
      1 + (if ed.degree != [] || ed.startDate != [] || ed.endDate != [] then 1 else 0) +
      (if ed.school != [] then 2 else 0) + (if ed.location != [] then 1 else 0)
    ensures EducationLines(ed)[|EducationLines(ed)| - 1] == ""
    ensures ed.degree != [] || ed.startDate != [] || ed.endDate != [] ==>
      EducationLines(ed)[0] == Degree(ed) + @" \hfill " + DateColumn(ed) + @" \\"
    ensures var h := if ed.degree != [] || ed.startDate != [] || ed.endDate != [] then 1 else 0;
      ed.school != [] ==> EducationLines(ed)[h..h + 2] == [EscapeLatex(ed.school), @"\\"]
    ensures ed.location != [] ==> EducationLines(ed)[|EducationLines(ed)| - 2] == EscapeLatex(ed.location)
  {
    DateTextCases(ed.startDate, ed.endDate);
    var degree, dateStr := Degree(ed), DateColumn(ed);
    var head := if degree != [] || dateStr != [] then [degree + @" \hfill " + dateStr + @" \\"] else [];
    var school := if ed.school != [] then [EscapeLatex(ed.school), @"\\"] else [];
    var location := if ed.location != [] then [EscapeLatex(ed.location)] else [];
    assert EducationLines(ed) == head + school + location + [""];
    assert degree != [] || dateStr != [] <==> ed.degree != [] || ed.startDate != [] || ed.endDate != [];
    FourParts(head, school, location, [""]);
  }

  /** Where each part of a four-part concatenation sits. */
  lemma FourParts<T>(a: seq<T>, b: seq<T>, c: seq<T>, d: seq<T>)
    ensures |a + b + c + d| == |a| + |b| + |c| + |d|
    ensures (a + b + c + d)[..|a|] == a
    ensures (a + b + c + d)[|a|..|a| + |b|] == b
    ensures (a + b + c + d)[|a| + |b|..|a| + |b| + |c|] == c
    ensures (a + b + c + d)[|a| + |b| + |c|..] == d
  {
    var s := a + b + c + d;
    assert s[..|a|] == a;
    assert s[|a|..|a| + |b|] == b;
    assert s[|a| + |b|..|a| + |b| + |c|] == c;
    assert s[|a| + |b| + |c|..] == d;
  }

  /** Entries keep input order: the entries of a concatenation are those
      of the first part followed by those of the second. */
  lemma {:induction false} EntriesAppend<T>(xs: seq<T>, ys: seq<T>, render: T -> seq<string>, n: nat)
    requires n <= |ys|
    ensures Entries(xs + ys, render, |xs| + n) == Entries(xs, render, |xs|) + Entries(ys, render, n)
  {
    if n == 0 {
      EntriesPrefix(xs, ys, render, |xs|);
    } else {
      EntriesAppend(xs, ys, render, n - 1);
      assert (xs + ys)[|xs| + n - 1] == ys[n - 1];
    }
  }

  lemma {:induction false} EntriesPrefix<T>(xs: seq<T>, ys: seq<T>, render: T -> seq<string>, n: nat)
    requires n <= |xs|
    ensures Entries(xs + ys, render, n) == Entries(xs, render, n)
  {
    if n > 0 {
      EntriesPrefix(xs, ys, render, n - 1);
      assert (xs + ys)[n - 1] == xs[n - 1];
    }
  }

  /** The escaped phone and email, those that are present, phone first. */
  method CollectContactParts(c: Contact) returns (contactParts: seq<string>)
    ensures contactParts == ContactParts(c)
  {
    contactParts := [];
    if c.phone != [] {
      contactParts := contactParts + [EscapeLatex(c.phone)];
    }
    if c.email != [] {
      contactParts := contactParts + [EscapeLatex(c.email)];
    }
  }

  /** Pushes the contact block and opens the document body. */
  method PushContact(lines: seq<string>, c: Contact) returns (out: seq<string>)
    ensures out == lines + ContactLines(c)
  {
    var name := [NameLine(c)];
    out := lines + name;
    var location: seq<string> := [];
    if c.location != [] {
      location := [AddressLine(EscapeLatex(c.location))];
      out := out + location;
    } else {
      assert out == out + location;
    }
    var contactParts := CollectContactParts(c);
    var reach: seq<string> := [];
    if |contactParts| > 0 {
      reach := [AddressLine(Join(contactParts, @" \\"))];
      out := out + reach;
    } else {
      assert out == out + reach;
    }
    var open := ["", BeginDocument, ""];
    out := out + open;
    Associative4(lines, name, location, reach, open);
  }

  /** Pushes a section of entries: nothing when there are none, otherwise
      the header, the lines of every entry in order (one forEach iteration
      per entry) and the end of the section. */
  method PushSection<T>(lines: seq<string>, header: string, xs: seq<T>, render: T -> seq<string>) returns (out: seq<string>)
    ensures out == lines + Section(header, xs, render)
  {
    out := lines;
    if |xs| > 0 {
      var head := lines + [header, ""];
      out := head;
      assert out == head + Entries(xs, render, 0);
      var i := 0;
      while i < |xs|
        invariant 0 <= i <= |xs|
        invariant out == head + Entries(xs, render, i)
      {
        var entry := render(xs[i]);
        EntriesStep(xs, render, i);
        AppendAssoc(head, Entries(xs, render, i), entry);
        out := out + entry;
        i := i + 1;
      }
      out := out + [SectionEnd, ""];
      Associative3(lines, [header, ""], Entries(xs, render, |xs|), [SectionEnd, ""]);
    }
  }

  /** The lines one category pushes: its row, if it has one, and then a
      blank line unless it is the last of the `count` categories. */
  method PushRow(ghost rows: seq<Option<string>>, count: nat, index: nat, row: Option<string>) returns (pushed: seq<string>)
    requires count == |rows| && index < count && rows[index] == row
    ensures pushed == RowLines(rows, index)
  {
    pushed := [];
    if row.Some? {
      pushed := [row.value];
      if index < count - 1 {
        pushed := pushed + [""];
      }
    }
  }

  /** The row of the category at `index`, built by RenderRow when the
      category has a colon after a non-empty title. */
  method CategoryRow(categories: seq<string>, index: nat) returns (row: Option<string>)
    requires index < |categories|
    ensures row == RowOptions(categories)[index]
  {
    var cat := categories[index];
    var colonIndex := IndexOf(cat, ':');
    row := None;
    if colonIndex > 0 {
      var category := Category(Trim(cat[..colonIndex]), Tokens(Trim(cat[colonIndex + 1..])));
      var line := RenderRow(category);
      row := Some(line);
    }
    RowOptionsIndex(categories, index);
  }

  /** Pushes the Skills and Interests section: the table opens, every
      category pushes its lines, and the table closes. */
  method PushSkills(lines: seq<string>, skills: string) returns (out: seq<string>)
    ensures out == lines + SkillsSection(skills)
  {
    out := lines;
    if skills != [] {
      var head := lines + [SkillsHeader, "", TabularBegin];
      ghost var rows := RowOptions(Categories(skills));
      out := PushCategories(head, Categories(skills));
      out := out + [TabularEnd, "", SectionEnd, ""];
      Associative3(lines, [SkillsHeader, "", TabularBegin], LinesUpTo(rows, |rows|), [TabularEnd, "", SectionEnd, ""]);
    }
  }

  /** The forEach over the categories: one row per category that has a
      title, each built by RenderRow, and a blank line after every row but
      that of the last category. */
  method PushCategories(head: seq<string>, categories: seq<string>) returns (out: seq<string>)
    ensures out == head + LinesUpTo(RowOptions(categories), |categories|)
  {
    ghost var rows := RowOptions(categories);
    var pushed: seq<string> := [];
    var index := 0;
    while index < |categories|
      invariant 0 <= index <= |categories|
      invariant pushed == LinesUpTo(rows, index)
    {
      var row := CategoryRow(categories, index);
      var lines := PushRow(rows, |categories|, index, row);
      LinesStep(rows, index);
      pushed := pushed + lines;
      index := index + 1;
    }
    out := head + pushed;
  }

  lemma EntriesStep<T>(xs: seq<T>, render: T -> seq<string>, i: nat)
    requires i < |xs|
    ensures Entries(xs, render, i + 1) == Entries(xs, render, i) + render(xs[i])
  {
  }

  lemma Associative3(a: seq<string>, b: seq<string>, c: seq<string>, d: seq<string>)
    ensures a + b + c + d == a + (b + c + d)
  {
  }

  lemma Associative4(a: seq<string>, b: seq<string>, c: seq<string>, d: seq<string>, e: seq<string>)
    ensures a + b + c + d + e == a + (b + c + d + e)
  {
  }

  /** buildLatex: appends the document line by line, section by section,
      and joins the lines with line feeds. The result is the document the
      snapshot determines; the configuration is never read. */
  method BuildLatex(data: ResumeData, cfg: LatexConfig) returns (doc: string)
    ensures doc == LatexDocument(data)
  {
    var lines := Preamble;
    lines := PushContact(lines, data.contact);
    var summary: seq<string> := [];
    if data.contact.headline != [] {
      summary := [SummaryBegin, "", EscapeLatex(data.contact.headline), "", SectionEnd, ""];
      lines := lines + summary;
    } else {
      assert lines == lines + summary;
    }
    lines := PushSection(lines, ProjectsBegin, data.projects, ProjectLines);
    lines := PushSkills(lines, data.skills);
    lines := PushSection(lines, ExperienceBegin, data.experience, ExperienceLines);
    lines := PushSection(lines, EducationBegin, data.education, EducationLines);
    lines := lines + [EndDocument];
    assert summary == SummaryLines(data.contact);
    BodySplit(Preamble, ContactLines(data.contact), summary,
      Section(ProjectsBegin, data.projects, ProjectLines), SkillsSection(data.skills),
      Section(ExperienceBegin, data.experience, ExperienceLines),
      Section(EducationBegin, data.education, EducationLines), [EndDocument]);
    doc := Join(lines, "\n");
  }

  lemma BodySplit(p: seq<string>, a: seq<string>, b: seq<string>, c: seq<string>, d: seq<string>, e: seq<string>, f: seq<string>, g: seq<string>)
    ensures p + a + b + c + d + e + f + g == p + (a + b + c + d + e + f + g)
  {
  }
}
