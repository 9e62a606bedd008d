# Résumé to LaTeX and PDF export, modelled in Dafny

The résumé builder turns a compiled résumé snapshot into one LaTeX source
file and, through a remote compile service, into a PDF download. This
project models the two files that do that work:

- `src/utils/latex.ts`:
  - `escapeLatex`, the chain of ten one-character replacements;
  - `formatBullets`, which turns free text into `\item` lines;
  - the skills table;
  - `buildLatex`, which emits the embedded `resume.cls` preamble, the
    contact block, then the Summary, Projects, Skills and Interests,
    Experience and Education sections and the closing `\end{document}`;
  - `sanitizeFilename`.
- `src/utils/pdf.ts`:
  - its own copy of `sanitizeFilename`;
  - `compileLatexToPdf`, whose compile service is a parameter;
  - `generatePdf`.

Modules, one per file:

- `text.dfy`: the JavaScript string primitives the code relies on (`trim`, `split`, `join`, `indexOf`, `filter(Boolean)`, the `\s` class). It also holds the shared `Option`/`Result` wrappers.
- `escape.dfy`: `escapeLatex` as written, and the per-character table it amounts to.
- `bullets.dfy`: `formatBullets`.
- `skills.dfy`: the skills table. It covers categories, tokens, the chunks of four tokens and the row lines.
- `resume.dfy`: the snapshot and the configuration.
- `latex.dfy`: `buildLatex`.
  - Reference functions give the lines of each block.
  - Methods append to the line list as the source does, and each is proved equal to its reference function.
- `document.dfy`: whole-document properties of the generated source. These are the landmark lines, the section order, uniqueness of `\begin{document}` and `\end{document}`, and the first and last text.
- `filename.dfy`: `sanitizeFilename`, defined once for both copies.
- `pdf.dfy`: `generatePdf` and the download name.

An optional string field of the snapshot is a `string` in which `""` stands
for a missing value. The code only ever tests these fields for
truthiness, and `undefined` and `""` are both falsy. A missing list is the
empty sequence.

`Bullets.BulletsExample` proves that `"A\n\nB\n  \n C "` yields the three
items `A`, `B`, `C`.

## Model

| member | source | states |
|---|---|---|
| Escape.EscapeLatex | src/utils/latex.ts:6-18 | escapeLatex: the ten global replacements applied in the source's order, backslash first and caret last. What it computes is stated by EscapeLatexIsPerCharacter and the lemmas after it. |
| Escape.ReplaceAllAppend | src/utils/latex.ts:8-17 | One global one-character replacement distributes over concatenation. |
| Escape.ReplaceAllAbsent | src/utils/latex.ts:8-17 | Text without the target character is returned unchanged by a replacement step. |
| Escape.ApplyFromAppend | src/utils/latex.ts:6-18 | The chain of replacement steps, from any step on, distributes over concatenation. |
| Escape.EscapeLatexAppend | src/utils/latex.ts:6-18 | escapeLatex of a concatenation is the concatenation of the escapes. |
| Escape.FirstHit | src/utils/latex.ts:6-18 | A single character passes unchanged through every step before the one that targets it, and that step replaces it. |
| Escape.BackslashChain | src/utils/latex.ts:8-15 | A backslash becomes `\textbackslash` followed by escaped braces, because the brace steps run after the backslash step. |
| Escape.EscapeLatexChar | src/utils/latex.ts:6-18 | The ten-step chain applied to one character gives exactly the per-character table entry: `\textbackslash\{\}` for a backslash, the macro for `~` and `^`, a backslash before the other seven specials, and the character itself otherwise. |
| Escape.EscapeLatexIsPerCharacter | src/utils/latex.ts:6-18 | escapeLatex equals the per-character reference definition on every input. |
| Escape.EscapeLatexUnchanged | src/utils/latex.ts:6-18 | Output equals input exactly when the input holds none of the ten special characters, and the output is never shorter than the input. |
| Escape.EscapeCharShape | src/utils/latex.ts:8-17 | Each table entry is the character itself or starts with a backslash followed by `t` or the character. Its controls are escaped, it holds no `~` or `^`, and it holds a line feed exactly when the character is one. |
| Escape.EscapeLatexControlsEscaped | src/utils/latex.ts:9-13 | In escaped output every `&`, `%`, `$`, `#` and `_` is immediately preceded by a backslash. |
| Escape.EscapeLatexNoTildeCaret | src/utils/latex.ts:16-17 | No `~` and no `^` survives escaping. |
| Escape.EscapeLatexHead | src/utils/latex.ts:6-18 | A backslash at the start of escaped text is followed by `t` or by an escaped special character. |
| Escape.EscapeLatexNewlines | src/utils/latex.ts:6-18 | Escaping neither adds nor removes line feeds. |
| Escape.EscapedTwice | src/utils/latex.ts:9 | `&` escaped once is `\&`; escaped a second time it becomes `\textbackslash\{\}\&`. |
| Bullets.SplitLines | src/utils/latex.ts:27 | `split(/\r?\n/)`: the pieces between line feeds, each with one carriage return before its line feed dropped. There are as many pieces as in the plain line-feed split. |
| Bullets.FormatBullets | src/utils/latex.ts:24-32 | formatBullets: `""` for missing text or text without items, otherwise one `\item` line per item joined by line feeds. Its properties are stated by FormatBulletsEmpty and FormatBulletsLines. |
| Bullets.BulletItems | src/utils/latex.ts:26-29 | Every item is non-empty, trimmed and free of line feeds. |
| Bullets.LinesIgnoreCR | src/utils/latex.ts:27-28 | Dropping the carriage return before each line feed does not change the trimmed, non-blank lines. |
| Bullets.ItemsEmpty | src/utils/latex.ts:26-30 | There are no items exactly when the text is whitespace only. |
| Bullets.FormatBulletsEmpty | src/utils/latex.ts:24-32 | formatBullets returns `""` exactly for text that is missing, empty or whitespace only. |
| Bullets.FormatBulletsLines | src/utils/latex.ts:31 | Otherwise the result, split at line feeds, is one `\item` line per item, in order. |
| Bullets.ItemsAppendLine | src/utils/latex.ts:26-29 | The items of `a + "\n" + b` are the items of `a` followed by those of `b`. |
| Bullets.ItemsOneLine | src/utils/latex.ts:26-29 | Text without a line feed yields its trim as the only item, or no item when the trim is empty. |
| Bullets.BulletsExample | src/utils/latex.ts:24-32 | The text `"A\n\nB\n  \n C "` yields the three items `A`, `B`, `C`. |
| Skills.Categories | src/utils/latex.ts:212-215 | Every category is non-empty, trimmed and free of `\|`. |
| Skills.Tokens | src/utils/latex.ts:222 | The skill list split at commas, each piece trimmed, the empty ones dropped. TokensShape states its properties. |
| Skills.ParseCategory | src/utils/latex.ts:218-222 | The label and tokens of a category, or none when its first colon is missing or at the start. ParseCategoryCases states both cases. |
| Skills.SkillRow | src/utils/latex.ts:223-235 | The reference row line of a category. RenderRow proves the loop builds it, and RowNonEmpty and RowPartsCount state its shape. |
| Skills.RowOf | src/utils/latex.ts:218-235 | The row line a category yields, or none when it has no usable colon. ParseCategoryCases states when it is none, and RenderRow proves the chunk loop builds the row. |
| Skills.SkillsBlock | src/utils/latex.ts:207-247 | The section with the row lines of all categories inside the tabular. SkillsRows states the rows are those of the categories in order, and SkillsWithoutRows that the tabular stays when there are none. |
| Skills.TokensShape | src/utils/latex.ts:222 | Every token is non-empty, trimmed and free of commas. |
| Skills.ParseCategoryCases | src/utils/latex.ts:218-222 | A category yields no row exactly when it has no colon or starts with one. Otherwise the label is the trimmed text before the first colon and the tokens come from the text after it. |
| Skills.RenderRow | src/utils/latex.ts:223-235 | The chunk loop builds exactly the reference row: the label and the first four tokens, one ` \\&` part per further chunk of four, joined by spaces and ended by `\\`. |
| Skills.ChunksPartition | src/utils/latex.ts:227-233 | The chunks concatenate back to the tokens, in order. There are ceil(n/4) of them, each of one to four tokens, and all but the last have four. |
| Skills.RowPartsCount | src/utils/latex.ts:226-233 | A row has max(1, ceil(n/4)) parts. |
| Skills.RowNonEmpty | src/utils/latex.ts:235 | Every row line is non-empty and ends in a backslash. |
| Skills.RowsInOrder | src/utils/latex.ts:217-241 | Leaving blank separators aside, the table lines are the rows of the categories that have one, in category order. |
| Skills.RowsCount | src/utils/latex.ts:235-239 | The table holds two lines per row, one fewer when the last category has a row: its row is not followed by a blank line. |
| Skills.NoRows | src/utils/latex.ts:217-241 | When no category yields a row, nothing is pushed between the tabular lines. |
| Skills.TableFrame | src/utils/latex.ts:208-246 | The tabular environment is opened and closed around the row lines, whatever they are. |
| Skills.SkillsWithoutRows | src/utils/latex.ts:207-247 | Skills text whose categories all lack a usable colon gives an empty table. |
| Skills.SkillsRows | src/utils/latex.ts:207-247 | The rows of the section are those of its categories, in order. |
| Latex.SummaryLines | src/utils/latex.ts:171-179 | The Summary section: its opening, `""`, the escaped headline, `""`, `\end{rSection}`, `""`, only when the headline is given. SectionsPresent states that its opening is present exactly when the headline is given. |
| Latex.BulletsLines | src/utils/latex.ts:193-196 | The bullets of an entry as one element when formatBullets returns a non-empty string, otherwise nothing. BulletsShape states when it is present and what its lines are. |
| Latex.ProjectHeader | src/utils/latex.ts:187-191 | The `\begin{rSubsection}` line of a project: the escaped name or `Project`, the escaped dates, the escaped title or `Project`. ProjectDefaults states the defaults. |
| Latex.TitleWithLocation | src/utils/latex.ts:257-260 | The title column of an experience entry: the escaped title or `Position`, then `, ` and the location escaped twice when a location is given. LocationEscapedTwice states the double escape. |
| Latex.ExperienceHeader | src/utils/latex.ts:255-261 | The `\begin{rSubsection}` line of an experience entry: the escaped company or `Company`, the escaped dates, the title column. ExperienceDefaults states the defaults. |
| Latex.Entries | src/utils/latex.ts:186-200 | The forEach over the entries: the lines of the first n entries, in order. EntriesAppend states that input order is kept. |
| Latex.Section | src/utils/latex.ts:182-204 | The `?.length` guard and the section frame: nothing for an empty list, otherwise the opening, `""`, every entry, `\end{rSection}`, `""`. The same frame serves Experience (latex.ts:250-274) and Education (latex.ts:277-304). PushSection proves the pushes build it and SectionsPresent states its opening is present exactly when the list is non-empty. |
| Latex.SkillsSection | src/utils/latex.ts:207-247 | The Skills and Interests section when skills text is given, otherwise nothing. PushSkills proves the pushes build it and SectionsPresent states its opening is present exactly when skills are given. |
| Latex.DateText | src/utils/latex.ts:188 | The non-empty dates joined by ` - `. DateTextCases states its cases. |
| Latex.ContactLines | src/utils/latex.ts:149-169 | The reference contact block. ContactShape states its lines and PushContact proves the pushes build it. |
| Latex.ProjectLines | src/utils/latex.ts:186-200 | The reference lines of one project entry. ProjectShape and ProjectDefaults state them. |
| Latex.ExperienceLines | src/utils/latex.ts:254-270 | The reference lines of one experience entry. ExperienceShape, ExperienceDefaults and LocationEscapedTwice state them. |
| Latex.EducationLines | src/utils/latex.ts:281-300 | The reference lines of one education entry. EducationShape states them. |
| Latex.Body | src/utils/latex.ts:148-306 | The reference lines after the preamble: contact block, Summary, Projects, Skills and Interests, Experience, Education, `\end{document}`. BodyLandmarks states its landmarks. |
| Latex.LatexDocument | src/utils/latex.ts:38-309 | The reference document: preamble and body joined by line feeds. BuildLatex proves the method computes it, and DocumentStartsEnds states its first and last text. |
| Latex.DateTextCases | src/utils/latex.ts:188 | The dates are `start - end` when both are given, otherwise the one given, otherwise empty. The text is empty exactly when both dates are missing. |
| Latex.ContactShape | src/utils/latex.ts:149-169 | The contact block is the name line, then an `\address` line for the location when there is one, then one for phone and email when either is given, then `""`, `\begin{document}`, `""`. |
| Latex.ReachOrder | src/utils/latex.ts:155-165 | With both phone and email, the second address line holds the phone, then ` \\`, then the email. |
| Latex.ReachSingle | src/utils/latex.ts:155-165 | With only one of phone and email, the line holds that one alone. |
| Latex.NameDefault | src/utils/latex.ts:149 | A missing full name renders as `\name{Your Name}`. |
| Latex.ProjectDefaults | src/utils/latex.ts:187-191 | A project without a name or title shows `Project` in both places. |
| Latex.ExperienceDefaults | src/utils/latex.ts:255-261 | An experience entry without company or title shows `Company` and `Position`. |
| Latex.LocationEscapedTwice | src/utils/latex.ts:258-260 | An experience location is escaped twice: `&` appears as `\textbackslash\{\}\&` in the title column. |
| Latex.BulletsShape | src/utils/latex.ts:193-196 | A bullet block is pushed exactly when the text has a non-blank line. It is one element whose lines are the `\item` lines. |
| Latex.ProjectShape | src/utils/latex.ts:186-200 | A project entry is its header, its bullets when there are any, then `\end{rSubsection}` and `""`. |
| Latex.ExperienceShape | src/utils/latex.ts:254-270 | An experience entry has the same shape as a project entry. |
| Latex.EducationShape | src/utils/latex.ts:281-300 | An education entry counts one line for the degree and dates when the degree or a date is given, two lines for the school when given, one for the location when given, and a closing `""` that is always its last line. The degree-and-dates line, when present, is first and is the degree, ` \hfill `, the date column and ` \\`. The escaped school and `\\` follow it. The escaped location is the line before the closing `""`. |
| Latex.EntriesAppend | src/utils/latex.ts:186-200 | Entries keep input order: the entries of `xs + ys` are those of `xs` followed by those of `ys`. |
| Latex.CollectContactParts | src/utils/latex.ts:155-161 | The collected parts are the escaped phone and email, those present, phone first. |
| Latex.PushContact | src/utils/latex.ts:149-169 | Appends exactly the contact block to the lines. |
| Latex.PushSection | src/utils/latex.ts:182-204 | Appends nothing for an empty list. Otherwise it appends the section opening, every entry in order and the section end. |
| Latex.CategoryRow | src/utils/latex.ts:218-235 | Returns the row of the category at `index`, or none when it has no usable colon. |
| Latex.PushRow | src/utils/latex.ts:235-239 | Pushes the row and then a blank line unless it is the last category. |
| Latex.PushCategories | src/utils/latex.ts:217-241 | The forEach pushes the lines of every category in order. |
| Latex.PushSkills | src/utils/latex.ts:207-247 | Appends exactly the Skills and Interests section. |
| Latex.BuildLatex | src/utils/latex.ts:38-309 | The lines pushed step by step, joined by line feeds, are the reference document of the snapshot. The configuration is never read. |
| Document.PreambleLandmarks | src/utils/latex.ts:42-146 | No preamble line is `\begin{document}`, `\end{document}` or a section opening. |
| Document.ContactLandmarks | src/utils/latex.ts:149-169 | The contact block holds `\begin{document}` as its only landmark. |
| Document.ProjectLandmarks | src/utils/latex.ts:186-200 | No line of a project entry is a landmark, whatever the user wrote. |
| Document.EducationLandmarks | src/utils/latex.ts:281-300 | No line of an education entry is a landmark. |
| Document.SkillsLandmarks | src/utils/latex.ts:207-247 | The skills section holds its opening as its only landmark, and only when skills are given. |
| Document.BodyLandmarks | src/utils/latex.ts:148-306 | The body's landmarks are `\begin{document}`, then the openings of the present sections in the order Summary, Projects, Skills and Interests, Experience, Education, then `\end{document}`. |
| Document.DocumentLandmarks | src/utils/latex.ts:38-309 | The same holds for the whole document, preamble included. |
| Document.DocumentOnce | src/utils/latex.ts:167-306 | `\begin{document}` and `\end{document}` each occur exactly once among the lines. |
| Document.LandmarkCount | src/utils/latex.ts:38-309 | A landmark occurs among the lines as often as among their landmarks. |
| Document.SectionsPresent | src/utils/latex.ts:172-304 | Each section opening is present exactly when its field is non-empty. |
| Document.LandmarksDistinct | src/utils/latex.ts:168-306 | The seven landmark lines are pairwise different. |
| Document.DocumentStartsEnds | src/utils/latex.ts:42-308 | The generated text starts with the `\documentclass` line and ends with `\end{document}`. |
| Document.LinksIgnored | src/utils/latex.ts:148-165 | The website and LinkedIn fields have no effect on the generated text. |
| Document.EmptySkeleton | src/utils/latex.ts:148-306 | With no optional contact fields and no sections, the body is the name line, `""`, `\begin{document}`, `""`, `\end{document}`. |
| Filename.Allowed | src/utils/latex.ts:330 | The characters the case-insensitive pattern leaves alone: ASCII letters of either case, digits, U+00C0 to U+024F, whitespace, `.`, `_`, `-`, and 25 characters outside that range whose case mapping meets a letter of it. |
| Filename.Collapse | src/utils/latex.ts:330 | The replace step: each maximal run of characters outside the class becomes one `_`. CollapseIn, CollapseRun and CollapseAppend state it. |
| Filename.Sanitize | src/utils/latex.ts:329-331 | sanitizeFilename: the replaced name trimmed, or `resume` when that is empty. SanitizeShape and SanitizeFallback state it. |
| Filename.CollapseIn | src/utils/latex.ts:330 | The replace step leaves only allowed characters and never lengthens the name. |
| Filename.CollapseKeeps | src/utils/latex.ts:330 | A name made of allowed characters passes the replace step unchanged. |
| Filename.CollapseRun | src/utils/latex.ts:330 | A whole run of disallowed characters becomes one underscore. |
| Filename.CollapseAppend | src/utils/latex.ts:330 | The replace step distributes over a concatenation whose second part starts with an allowed character. |
| Filename.CollapseSpace | src/utils/latex.ts:330 | The replaced name is all whitespace exactly when the original is. |
| Filename.SanitizeShape | src/utils/latex.ts:329-331 | The sanitized name is never empty, holds allowed characters only and has no surrounding whitespace. |
| Filename.SanitizeFallback | src/utils/latex.ts:329-331 | The fallback `resume` is taken exactly for names that are empty or all whitespace. Any other name gives its replaced and trimmed text, which is non-empty. |
| Filename.SanitizeAllowed | src/utils/pdf.ts:4-6 | A name of allowed characters is only trimmed, or becomes `resume` when it is blank. |
| Filename.SanitizeIdempotent | src/utils/latex.ts:329-331 | Sanitizing twice gives the same name as sanitizing once. |
| Pdf.CompileLatexToPdf | src/utils/pdf.ts:11-31 | The result is an error exactly when the service's response is not ok. The error is `LaTeX compilation failed: ` followed by the response text. Otherwise it is the response bytes as an `application/pdf` blob. |
| Pdf.PdfFilename | src/utils/pdf.ts:48-49 | The download name: the full name, or `resume`, with `_CV` appended, sanitized, then `.pdf`. PdfFilenameShape and PdfFilenameSuffix state it. |
| Pdf.GeneratePdf | src/utils/pdf.ts:11-52 | Without a snapshot the result is the error `No compiled snapshot found.`. If the service's response to the generated source is not ok, it is the error `LaTeX compilation failed: ` followed by the response text. Otherwise it is the response bytes as an `application/pdf` blob with the download name. The same function models both copies of `sanitizeFilename`. |
| Pdf.CollapsedName | src/utils/pdf.ts:48-49 | The `_CV` suffix passes the replace step unchanged. |
| Pdf.PdfFilenameShape | src/utils/pdf.ts:48-49 | The download name is the replaced name, or `resume`, without its leading whitespace, followed by `_CV.pdf`. The sanitizer's own fallback never fires. |
| Pdf.PdfFilenameSuffix | src/utils/pdf.ts:48-49 | Every download name ends in `_CV.pdf`. |
| Pdf.PdfFilenameEmpty | src/utils/pdf.ts:48-49 | A missing full name gives `resume_CV.pdf`. |

## Left out

- The network: the POST to the compile endpoint is a parameter `service` that maps the source to a response. Its URL, headers, JSON body and the await points are not modelled, and a failing `fetch` (a rejected promise) is not modelled either.
- `downloadLatex` and `downloadPdf` are not part of this model. They only create a `Blob`, an object URL and a DOM anchor and click it, which is browser I/O with nothing to state about values.
- Pdf.GeneratePdf: the blob is modelled as its bytes and MIME type. The `Blob` object itself and the asynchronous error propagation are outside Dafny.
- The preamble (src/utils/latex.ts:42-146) is a constant sequence of lines. What its TeX macros do when compiled is not modelled.
- Document.BodyLandmarks, Document.DocumentLandmarks, Document.DocumentOnce, Document.SectionsPresent: these properties are stated over the pushed line elements, not over the lines of the joined text. An element can span several text lines: a bullet block, whose lines each start with `\item` (Latex.BulletsShape), and also any element built from a user field that holds a line feed (the name or location address, the headline, a project or experience header, an education line or a skills row). No lemma states that the continuation lines of such elements are not landmarks, so these properties are not restated over the joined text.
- Filename.Allowed: the case-insensitive match is modelled as the listed class plus the 25 characters outside U+00C0-U+024F whose case fold meets that range, taken from the Unicode case tables. A different engine Unicode version could change that list.
- The `cfg` argument of `buildLatex` and `generatePdf` is accepted and ignored, as in the source.
- JavaScript strings are UTF-16. The model works on characters, so a character outside the Basic Multilingual Plane is one element here. For sanitizeFilename this changes nothing, because both halves of a surrogate pair are disallowed and collapse into one underscore together.
