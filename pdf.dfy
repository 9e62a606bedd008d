/** The PDF export of src/utils/pdf.ts: the file name and the LaTeX source
    that generatePdf derives from a snapshot, and the way it turns the
    compile service's answer into a result. The service itself is a
    parameter: a function from the source sent to the response received. */
module Pdf {
  import opened Wrappers
  import opened Text
  import opened Filename
  import opened Resume
  import opened Latex

  /** The compile service's response: whether it was ok, its body read as
      text and its body read as bytes. */
  datatype Response = Response(ok: bool, text: string, bytes: seq<bv8>)

  /** A blob: its bytes and its MIME type. */
  datatype Blob = Blob(bytes: seq<bv8>, mime: string)

  /** What generatePdf resolves to. */
  datatype PdfFile = PdfFile(blob: Blob, filename: string)

  const NoSnapshot := "No compiled snapshot found."
  const CompileFailed := "LaTeX compilation failed: "
  const PdfMime := "application/pdf"

  /** compileLatexToPdf: the service's bytes as a PDF blob, or an error
      carrying the service's text when the response is not ok. */
  function CompileLatexToPdf(code: string, service: string -> Response): (r: Result<Blob>)
    ensures r.Err? <==> !service(code).ok
    ensures r.Err? ==> r.message == CompileFailed + service(code).text
    ensures r.Ok? ==> r.value.bytes == service(code).bytes && r.value.mime == PdfMime
  {
    var response := service(code);
    if !response.ok then Err(CompileFailed + response.text) else Ok(Blob(response.bytes, PdfMime))
  }

  /** The download name: the sanitized full name, or "resume", with "_CV"
      appended, then ".pdf". */
  function PdfFilename(fullName: string): string
  {
    Sanitize(Or(fullName, "resume") + "_CV") + ".pdf"
  }

  /** generatePdf: fails before building anything when there is no
      snapshot; otherwise builds the source, has it compiled and names the
      file after the person. */
  method GeneratePdf(data: Option<ResumeData>, cfg: LatexConfig, service: string -> Response)
    returns (r: Result<PdfFile>)
    ensures data.None? ==> r == Err(NoSnapshot)
    ensures data.Some? && !service(LatexDocument(data.value)).ok ==>
      r == Err(CompileFailed + service(LatexDocument(data.value)).text)
    ensures data.Some? && service(LatexDocument(data.value)).ok ==>
      r == Ok(PdfFile(Blob(service(LatexDocument(data.value)).bytes, PdfMime), PdfFilename(data.value.contact.fullName)))
  {
    if data.None? {
      return Err(NoSnapshot);
    }
    var code := BuildLatex(data.value, cfg);
    var blob := CompileLatexToPdf(code, service);
    if blob.Err? {
      return Err(blob.message);
    }
    var filename := PdfFilename(data.value.contact.fullName);
    return Ok(PdfFile(blob.value, filename));
  }

  /** The characters of "_CV" are allowed. */
  lemma SuffixAllowed()
    ensures AllIn("_CV", Allowed)
  {
  }

  /** The name never falls back to a bare "resume": the collapsed name, with
      its leading whitespace dropped, is followed by "_CV.pdf". */
  lemma PdfFilenameShape(fullName: string)
    ensures PdfFilename(fullName) == TrimStart(Collapse(Or(fullName, "resume"), Allowed)) + "_CV.pdf"
  {
    var x := Or(fullName, "resume");
    CollapsedName(x);
    TrimSuffix(Collapse(x, Allowed));
  }

  /** Appending "_CV" leaves only the leading whitespace to trim. */
  lemma TrimSuffix(c: string)
    ensures Trim(c + "_CV") == TrimStart(c) + "_CV"
  {
    TrimBefore(c, "_CV");
  }

  /** The suffix passes the replace step unchanged. */
  lemma CollapsedName(x: string)
    ensures Collapse(x + "_CV", Allowed) == Collapse(x, Allowed) + "_CV"
  {
    SuffixAllowed();
    CollapseAppend(x, "_CV", Allowed);
    CollapseKeeps("_CV", Allowed);
  }

  /** Every PDF name ends in "_CV.pdf". */
  lemma PdfFilenameSuffix(fullName: string)
    ensures |PdfFilename(fullName)| >= 7
    ensures PdfFilename(fullName)[|PdfFilename(fullName)| - 7..] == "_CV.pdf"
  {
    PdfFilenameShape(fullName);
    EndsWith(TrimStart(Collapse(Or(fullName, "resume"), Allowed)), "_CV.pdf");
  }

  lemma EndsWith(a: string, b: string)
    ensures (a + b)[|a + b| - |b|..] == b
  {
  }

  /** A missing or empty name gives resume_CV.pdf. */
  lemma PdfFilenameEmpty()
    ensures PdfFilename("") == "resume" + "_CV.pdf"
  {
    PdfFilenameShape("");
    ResumeKept();
  }

  lemma ResumeKept()
    ensures TrimStart(Collapse("resume", Allowed)) == "resume"
  {
    AllowedBasics();
    CollapseKeeps("resume", Allowed);
    assert !IsSpace("resume"[0]);
  }
}
