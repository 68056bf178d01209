/** The text logic of the quote ingestors: extension gate, `clean_data`, the per-line and
    per-paragraph "quote - author" rules of the TXT, DOCX and PDF ingestors, the CSV
    mapping, the extension dispatcher and the `QuoteModel` record with its repr.
    File reading is not modelled: every ingestor receives what its library returned. */
module QuoteEngine {
  import opened Wrappers
  import opened Seqs
  import opened PyStrings

  // ---------------------------------------------------------------- QuoteModel

  /** A quote and its author. */
  datatype QuoteModel = QuoteModel(quote: string, author: string)

  const REPR_PREFIX: string := "Quote Object: \""
  const REPR_SEPARATOR: string := "\" - "

  /** `QuoteModel.__repr__`: `Quote Object: "<quote>" - <author>`. The repr starts with the
      fixed prefix and ends with the author; when the quote holds no '"', the first '"'
      after the prefix is the one that closes the quote. */
  function Repr(m: QuoteModel): (r: string)
    ensures |r| >= |REPR_PREFIX| + |REPR_SEPARATOR| + |m.author|
    ensures r[..|REPR_PREFIX|] == REPR_PREFIX && r[|r| - |m.author|..] == m.author
    ensures '"' !in m.quote ==> IndexOf(r[|REPR_PREFIX|..], '"') == |m.quote|
  {
    var tail := REPR_SEPARATOR + m.author;
    assert '"' !in m.quote ==> IndexOf(m.quote + tail, '"') == |m.quote| by {
      if '"' !in m.quote {
        IndexOfAfterFree(m.quote, tail, '"');
      }
    }
    assert (REPR_PREFIX + (m.quote + tail))[|REPR_PREFIX|..] == m.quote + tail;
    REPR_PREFIX + (m.quote + tail)
  }

  /** Reads a record back from its repr, taking the quote to end at the first '"'. */
  function ParseRepr(s: string): Option<QuoteModel>
  {
    var n := |REPR_PREFIX|;
    if |s| < n || s[..n] != REPR_PREFIX then None
    else
      var rest := s[n..];
      var i := IndexOf(rest, '"');
      var m := |REPR_SEPARATOR|;
      if i + m <= |rest| && rest[i..i + m] == REPR_SEPARATOR then Some(QuoteModel(rest[..i], rest[i + m..]))
      else None
  }

  /** The repr of a record whose quote holds no '"' gives the record back. */
  lemma ReprRoundTrip(m: QuoteModel)
    requires '"' !in m.quote
    ensures ParseRepr(Repr(m)) == Some(m)
  {
    var s := Repr(m);
    var n := |REPR_PREFIX|;
    var rest := m.quote + REPR_SEPARATOR + m.author;
    assert s[n..] == rest;
    var i := |m.quote|;
    assert rest[i..i + |REPR_SEPARATOR|] == REPR_SEPARATOR;
    assert rest[..i] == m.quote && rest[i + |REPR_SEPARATOR|..] == m.author;
  }

  /** The first `c` in `a + b`, when `a` holds none and `b` starts with one, is where `b` starts. */
  lemma {:induction false} IndexOfAfterFree(a: string, b: string, c: char)
    requires c !in a && |b| > 0 && b[0] == c
    ensures IndexOf(a + b, c) == |a|
  {
    if a != [] {
      assert (a + b)[1..] == a[1..] + b;
      IndexOfAfterFree(a[1..], b, c);
    }
  }

  /** Without '"' in the quotes, distinct records have distinct reprs. */
  lemma ReprInjective(m1: QuoteModel, m2: QuoteModel)
    requires '"' !in m1.quote && '"' !in m2.quote
    requires Repr(m1) == Repr(m2)
    ensures m1 == m2
  {
    ReprRoundTrip(m1);
    ReprRoundTrip(m2);
  }

  /** With a '"' in the quote the repr no longer determines the record: moving a
      `" - ` from the end of the quote to the start of the author keeps the repr. */
  lemma ReprAmbiguousWithQuoteMark(a: string, b: string, c: string)
    ensures QuoteModel(a + REPR_SEPARATOR + b, c) != QuoteModel(a, b + REPR_SEPARATOR + c)
    ensures Repr(QuoteModel(a + REPR_SEPARATOR + b, c)) == Repr(QuoteModel(a, b + REPR_SEPARATOR + c))
  {
    assert |a + REPR_SEPARATOR + b| != |a|;
    assert REPR_PREFIX + (a + REPR_SEPARATOR + b) + REPR_SEPARATOR + c
        == REPR_PREFIX + a + REPR_SEPARATOR + (b + REPR_SEPARATOR + c);
  }

  // ---------------------------------------------------------------- Extension gate

  /** The concrete ingestor classes. */
  datatype IngestorKind = DocxIngestor | CsvIngestor | PdfIngestor | TxtIngestor

  /** The `allowed_extensions` class attribute of each ingestor. */
  function AllowedExtensions(k: IngestorKind): seq<string>
  {
    match k
    case DocxIngestor => ["docx"]
    case CsvIngestor => ["csv"]
    case PdfIngestor => ["pdf"]
    case TxtIngestor => ["txt"]
  }

  /** `input_extension`: `path.split('.')[-1]`. The result is the longest suffix of the
      path without a '.': preceded by a '.', or the whole path when it has none. */
  function InputExtension(path: string): (ext: string)
    ensures '.' !in ext
    ensures |ext| <= |path| && ext == path[|path| - |ext|..]
    ensures |ext| == |path| || path[|path| - |ext| - 1] == '.'
  {
    SplitLast(path, '.');
    SplitPieces(path, '.');
    var parts := Split(path, '.');
    parts[|parts| - 1]
  }

  /** The path is the extension itself, or ends with '.' followed by it. */
  predicate HasExtension(path: string, ext: string)
  {
    path == ext || (|path| > |ext| && path[|path| - |ext| - 1..] == "." + ext)
  }

  /** `can_ingest`: the extension is, exactly and case-sensitively, an allowed one; that is,
      the path is an allowed extension or ends with '.' and an allowed extension. */
  function CanIngest(k: IngestorKind, path: string): (ok: bool)
    ensures ok <==> HasExtension(path, AllowedExtensions(k)[0])
  {
    var allowed := AllowedExtensions(k);
    assert allowed == [allowed[0]] && '.' !in allowed[0];
    InputExtensionIff(path, allowed[0]);
    InputExtension(path) in allowed
  }

  /** For a dot-free `ext`, `input_extension` returns `ext` exactly when the path is `ext`
      or ends with "." + `ext`. */
  lemma InputExtensionIff(path: string, ext: string)
    requires '.' !in ext
    ensures InputExtension(path) == ext <==> HasExtension(path, ext)
  {
    var e := InputExtension(path);
    if e == ext && |e| < |path| {
      assert path[|path| - |ext| - 1..] == [path[|path| - |ext| - 1]] + path[|path| - |ext|..];
    }
    if HasExtension(path, ext) {
      if path == ext {
        InputExtensionWithoutDot(path);
      } else {
        var stem := path[..|path| - |ext| - 1];
        assert path == stem + "." + ext by {
          assert path == stem + path[|path| - |ext| - 1..];
        }
        InputExtensionAfterDot(stem, ext);
      }
    }
  }

  /** A path without a '.' is its own extension. */
  lemma InputExtensionWithoutDot(path: string)
    requires '.' !in path
    ensures InputExtension(path) == path
  {
  }

  /** A path ending in '.' followed by a dot-free name has that name as extension. */
  lemma InputExtensionAfterDot(stem: string, ext: string)
    requires '.' !in ext
    ensures InputExtension(stem + "." + ext) == ext
  {
    var path := stem + "." + ext;
    var e := InputExtension(path);
    assert path[|path| - |ext| - 1] == '.';
    assert path[|path| - |ext|..] == ext;
  }

  // ---------------------------------------------------------------- clean_data

  /** The character class of the `re.sub` in `clean_data`. */
  const UNWANTED: set<char> :=
    {'(', ')', '"', '#', '<', '>', '{', '}', '`', '+', '=', '~', '|', '.', '!', '?', '/', '@', ';', ',',
     '\U{BF}', '\U{AB}', '\U{BB}', '\U{A8}', '\U{EF}'}

  predicate IsWanted(c: char)
  {
    c !in UNWANTED
  }

  /** What `clean_data` guarantees of its output. */
  predicate IsCleanText(classes: CharClasses, s: string)
  {
    && (forall c :: c in s ==> IsWanted(c) && classes.isPrintable(c))
    && (s == [] || (!classes.isSpace(s[0]) && !classes.isSpace(s[|s| - 1])))
  }

  /** `clean_data`: remove the unwanted characters, then the non-printable ones, then strip.
      The result is clean. */
  function CleanData(classes: CharClasses, text: string): (r: string)
    ensures IsCleanText(classes, r)
  {
    var removed := Keep(text, IsWanted);
    KeepMembers(removed, classes.isPrintable);
    Strip(classes, Keep(removed, classes.isPrintable))
  }

  /** `clean_data` only drops characters: what it keeps are the wanted, printable
      characters of the text, all of which survive except whitespace at the ends. */
  lemma CleanDataDropsOnly(classes: CharClasses, text: string)
    ensures multiset(CleanData(classes, text)) <= multiset(text)
    ensures forall c :: c in text && IsWanted(c) && classes.isPrintable(c) && !classes.isSpace(c) ==> c in CleanData(classes, text)
  {
    var removed := Keep(text, IsWanted);
    var printable := Keep(removed, classes.isPrintable);
    KeepMembers(text, IsWanted);
    KeepMembers(removed, classes.isPrintable);
    StripFacts(classes, printable);
  }

  /** `clean_data` returns an empty string exactly when the text holds no wanted,
      printable, non-whitespace character (the test `if cls.clean_data(line)` of the TXT ingestor). */
  lemma CleanDataEmptyIff(classes: CharClasses, text: string)
    ensures CleanData(classes, text) != [] <==>
      exists c :: c in text && IsWanted(c) && classes.isPrintable(c) && !classes.isSpace(c)
  {
    CleanDataDropsOnly(classes, text);
    var r := CleanData(classes, text);
    if r != [] {
      var c := r[0];
      assert c in r;
      KeepMembers(text, IsWanted);
      KeepMembers(Keep(text, IsWanted), classes.isPrintable);
      assert c in text && IsWanted(c) && classes.isPrintable(c) && !classes.isSpace(c);
    }
  }

  /** A clean text is left as it is: together with the first ensures of CleanData, the
      clean texts are exactly the fixed points of `clean_data`. */
  lemma CleanDataFixpoint(classes: CharClasses, text: string)
    requires IsCleanText(classes, text)
    ensures CleanData(classes, text) == text
  {
    KeepAll(text, IsWanted);
    KeepAll(text, classes.isPrintable);
  }

  /** `clean_data` is idempotent. */
  lemma CleanDataIdempotent(classes: CharClasses, text: string)
    ensures CleanData(classes, CleanData(classes, text)) == CleanData(classes, text)
  {
    CleanDataFixpoint(classes, CleanData(classes, text));
  }

  // ---------------------------------------------------------------- Line rules

  /** One line of `IngestorTXT.parse`: kept when its cleaned form is non-empty and it
      splits into more than one piece on '-'; the record takes the first two pieces. */
  function TxtLine(classes: CharClasses, line: string): (r: Option<QuoteModel>)
    ensures r.Some? ==> IsCleanText(classes, r.value.quote) && IsCleanText(classes, r.value.author)
  {
    if CleanData(classes, line) == [] then None
    else
      var parts := Split(line, '-');
      if |parts| > 1 then Some(QuoteModel(CleanData(classes, parts[0]), CleanData(classes, parts[1])))
      else None
  }

  /** One paragraph of `IngestorDOCX.parse`: kept when non-empty and split into exactly two
      pieces on '-'. */
  function DocxParagraph(classes: CharClasses, text: string): (r: Option<QuoteModel>)
    ensures r.Some? ==> IsCleanText(classes, r.value.quote) && IsCleanText(classes, r.value.author)
  {
    if text == [] then None
    else
      var parts := Split(text, '-');
      if |parts| == 2 then Some(QuoteModel(CleanData(classes, parts[0]), CleanData(classes, parts[1])))
      else None
  }

  /** One line of `IngestorPDF.parse`: strip, split on '-'; a line with a single piece
      raises IndexError at `elements[1]`, which the loop catches and skips. */
  function PdfLine(classes: CharClasses, line: string): (r: Option<QuoteModel>)
    ensures r.Some? ==> IsCleanText(classes, r.value.quote) && IsCleanText(classes, r.value.author)
  {
    var elements := Split(Strip(classes, line), '-');
    if |elements| > 1 then Some(QuoteModel(CleanData(classes, elements[0]), CleanData(classes, elements[1])))
    else None
  }

  /** The record cut from the text around its first '-': the quote is what precedes it, the
      author what follows it up to the next '-' or the end. */
  function PiecesAroundFirstDash(classes: CharClasses, s: string): QuoteModel
    requires '-' in s
  {
    var i := IndexOf(s, '-');
    var rest := s[i + 1..];
    QuoteModel(CleanData(classes, s[..i]), CleanData(classes, rest[..IndexOf(rest, '-')]))
  }

  /** TXT: a line yields a record exactly when its cleaned form is non-empty and it holds a
      '-'; the record is cut around the first '-', and pieces after a second '-' are dropped. */
  lemma TxtLineRule(classes: CharClasses, line: string)
    ensures TxtLine(classes, line).Some? <==> CleanData(classes, line) != [] && '-' in line
    ensures TxtLine(classes, line).Some? ==> TxtLine(classes, line).value == PiecesAroundFirstDash(classes, line)
  {
    SplitPieces(line, '-');
    if '-' in line {
      SplitFirstTwo(line, '-');
    }
  }

  /** DOCX: a paragraph yields a record exactly when it holds exactly one '-'; the quote is
      the text before it and the author the text after it, both cleaned. */
  lemma DocxParagraphRule(classes: CharClasses, text: string)
    ensures DocxParagraph(classes, text).Some? <==> Count(text, '-') == 1
    ensures DocxParagraph(classes, text).Some? ==>
      var i := IndexOf(text, '-');
      DocxParagraph(classes, text).value == QuoteModel(CleanData(classes, text[..i]), CleanData(classes, text[i + 1..]))
  {
    SplitPieces(text, '-');
    if Count(text, '-') == 1 {
      var i := IndexOf(text, '-');
      SplitHead(text, '-');
      var rest := text[i + 1..];
      var parts := Split(text, '-');
      assert |Split(rest, '-')| == 1;
      SplitHead(rest, '-');
      assert parts[1] == Split(rest, '-')[0];
      assert rest[..|rest|] == rest;
    }
  }

  /** PDF: a line yields a record exactly when its stripped form holds a '-', however empty
      the cleaned pieces are; the record is cut around the first '-' of the stripped line. */
  lemma PdfLineRule(classes: CharClasses, line: string)
    ensures PdfLine(classes, line).Some? <==> '-' in Strip(classes, line)
    ensures PdfLine(classes, line).Some? ==> PdfLine(classes, line).value == PiecesAroundFirstDash(classes, Strip(classes, line))
  {
    SplitPieces(Strip(classes, line), '-');
    if '-' in Strip(classes, line) {
      SplitFirstTwo(Strip(classes, line), '-');
    }
  }

  /** Since '-' is not whitespace, stripping never removes one: a PDF line yields a record
      exactly when it holds a '-' (empty lines included among those skipped). */
  lemma PdfLineKeptIffDash(classes: CharClasses, line: string)
    requires !classes.isSpace('-')
    ensures PdfLine(classes, line).Some? <==> '-' in line
  {
    PdfLineRule(classes, line);
  }

  /** A PDF line that is a lone '-' still yields a record, with empty quote and author. */
  lemma PdfLoneDashRecord(classes: CharClasses)
    requires !classes.isSpace('-')
    ensures PdfLine(classes, "-") == Some(QuoteModel("", ""))
  {
    var s: string := "-";
    assert LStrip(classes, s) == s;
    assert RStrip(classes, s) == s;
    assert Split(s, '-') == [[]] + Split([], '-');
    assert Keep([], IsWanted) == [];
  }

  // ---------------------------------------------------------------- Whole documents

  /** Which of the three text rules a document's lines or paragraphs go through. */
  datatype TextRule = TxtRule | DocxRule | PdfRule

  /** The record one line or paragraph yields under a rule, if any. */
  function RuleRecord(classes: CharClasses, rule: TextRule, s: string): (r: Option<QuoteModel>)
    ensures r.Some? ==> IsCleanText(classes, r.value.quote) && IsCleanText(classes, r.value.author)
  {
    match rule
    case TxtRule => TxtLine(classes, s)
    case DocxRule => DocxParagraph(classes, s)
    case PdfRule => PdfLine(classes, s)
  }

  /** What the rule says of each line or paragraph, position by position. */
  function Verdicts(classes: CharClasses, rule: TextRule, xs: seq<string>): (v: seq<Option<QuoteModel>>)
    ensures |v| == |xs|
  {
    seq(|xs|, i requires 0 <= i < |xs| => RuleRecord(classes, rule, xs[i]))
  }

  /** The records of a sequence of lines or paragraphs, in order: what the parse loops
      append to their list, one element at a time. */
  function Records(classes: CharClasses, rule: TextRule, xs: seq<string>): seq<QuoteModel>
  {
    Somes(Verdicts(classes, rule, xs))
  }

  /** The positions of the lines or paragraphs that yield a record, in increasing order. */
  function Origins(classes: CharClasses, rule: TextRule, xs: seq<string>): seq<nat>
  {
    SomeOrigins(Verdicts(classes, rule, xs))
  }

  /** Handling one more line appends its record, if it yields one. */
  lemma RecordsSnoc(classes: CharClasses, rule: TextRule, xs: seq<string>, i: nat)
    requires i < |xs|
    ensures Records(classes, rule, xs[..i + 1]) ==
      Records(classes, rule, xs[..i]) + (match RuleRecord(classes, rule, xs[i]) case Some(m) => [m] case None => [])
  {
    var v := Verdicts(classes, rule, xs[..i + 1]);
    var u := Verdicts(classes, rule, xs[..i]);
    assert v[..i] == u by {
      forall j | 0 <= j < i ensures v[j] == u[j] {
        assert xs[..i + 1][j] == xs[..i][j];
      }
    }
    assert v[i] == RuleRecord(classes, rule, xs[i]);
    assert Somes(v) == Somes(v[..i]) + (match v[i] case Some(m) => [m] case None => []);
  }

  /** One step of the PDF loop, in terms of the pieces of the stripped line. */
  lemma PdfStep(classes: CharClasses, lines: seq<string>, i: nat)
    requires i < |lines|
    ensures Records(classes, PdfRule, lines[..i + 1]) == Records(classes, PdfRule, lines[..i]) +
      match PdfLine(classes, lines[i]) case Some(m) => [m] case None => []
  {
    assert RuleRecord(classes, PdfRule, lines[i]) == PdfLine(classes, lines[i]);
    RecordsSnoc(classes, PdfRule, lines, i);
  }

  /** There are never more records than lines; there is one record per accepted line, each
      the record of the line at its origin; the origins strictly increase (line order is
      kept), and a line is an origin exactly when the rule accepts it. */
  lemma RecordsOrigins(classes: CharClasses, rule: TextRule, xs: seq<string>)
    ensures |Records(classes, rule, xs)| <= |xs|
    ensures var o := Origins(classes, rule, xs);
      && |o| == |Records(classes, rule, xs)|
      && (forall k :: 0 <= k < |o| ==> o[k] < |xs| && RuleRecord(classes, rule, xs[o[k]]) == Some(Records(classes, rule, xs)[k]))
      && (forall k, l :: 0 <= k < l < |o| ==> o[k] < o[l])
      && (forall i :: 0 <= i < |xs| ==> (RuleRecord(classes, rule, xs[i]).Some? <==> i in o))
  {
    var v := Verdicts(classes, rule, xs);
    SomesOrigins(v);
    assert forall i :: 0 <= i < |xs| ==> v[i] == RuleRecord(classes, rule, xs[i]);
  }

  /** The records of a TXT file, given its lines as `readlines()` returns them. */
  function TxtQuotes(classes: CharClasses, lines: seq<string>): seq<QuoteModel>
  {
    Records(classes, TxtRule, lines)
  }

  /** The records of a DOCX document, given the texts of its paragraphs. */
  function DocxQuotes(classes: CharClasses, paragraphs: seq<string>): seq<QuoteModel>
  {
    Records(classes, DocxRule, paragraphs)
  }

  /** The records of a PDF document, given the text `pdftotext -layout` printed. */
  function PdfQuotes(classes: CharClasses, text: string): seq<QuoteModel>
  {
    Records(classes, PdfRule, Split(text, '\n'))
  }

  /** TXT records are exactly those of the lines holding a '-' whose cleaned form is not
      empty, one per such line, in line order, and never more than there are lines. */
  lemma TxtQuotesFromLines(classes: CharClasses, lines: seq<string>)
    ensures |TxtQuotes(classes, lines)| <= |lines|
    ensures var o := Origins(classes, TxtRule, lines);
      && |o| == |TxtQuotes(classes, lines)|
      && (forall k, l :: 0 <= k < l < |o| ==> o[k] < o[l])
      && (forall k :: 0 <= k < |o| ==> o[k] < |lines| && '-' in lines[o[k]] && TxtQuotes(classes, lines)[k] == PiecesAroundFirstDash(classes, lines[o[k]]))
      && (forall i :: 0 <= i < |lines| ==> (i in o <==> CleanData(classes, lines[i]) != [] && '-' in lines[i]))
  {
    var o := Origins(classes, TxtRule, lines);
    RecordsOrigins(classes, TxtRule, lines);
    forall i | 0 <= i < |lines| ensures i in o <==> CleanData(classes, lines[i]) != [] && '-' in lines[i] {
      TxtLineRule(classes, lines[i]);
    }
    forall k | 0 <= k < |o| ensures TxtQuotes(classes, lines)[k] == PiecesAroundFirstDash(classes, lines[o[k]]) {
      TxtLineRule(classes, lines[o[k]]);
    }
  }

  /** No '"' survives `clean_data`, so the repr of every record the TXT, DOCX and PDF
      ingestors produce gives that record back. */
  lemma RecordsReprRoundTrip(classes: CharClasses, rule: TextRule, xs: seq<string>)
    ensures forall m :: m in Records(classes, rule, xs) ==> ParseRepr(Repr(m)) == Some(m)
  {
    RecordsOrigins(classes, rule, xs);
    var o := Origins(classes, rule, xs);
    forall m | m in Records(classes, rule, xs) ensures ParseRepr(Repr(m)) == Some(m) {
      var k :| 0 <= k < |Records(classes, rule, xs)| && Records(classes, rule, xs)[k] == m;
      assert '"' !in m.quote by {
        assert !IsWanted('"');
      }
      ReprRoundTrip(m);
    }
  }

  // ---------------------------------------------------------------- Ingestors

  /** The exceptions the ingestors raise. */
  datatype IngestError =
    | NotSupported(path: string)        // ValueError("File not supported - <path>"): DOCX, CSV and TXT gates
    | NotProcessed(path: string)        // ValueError("File not processed: <path>"): the PDF gate
    | PdfProcessingError(cause: string) // ValueError("Error occurred while processing PDF: <cause>")
    | NoSuitableIngestor                // Exception("No suitable ingestor found"): the dispatcher

  /** A row of the CSV file, as pandas reads its `body` and `author` columns. */
  datatype CsvRow = CsvRow(body: string, author: string)

  /** `IngestorCSV.parse`: after the gate, one record per row, taken verbatim (no cleaning). */
  function ParseCsv(path: string, rows: seq<CsvRow>): (r: Result<seq<QuoteModel>, IngestError>)
    ensures r.Failure? <==> !CanIngest(CsvIngestor, path)
    ensures r.Failure? ==> r.error == NotSupported(path)
    ensures r.Success? ==> |r.value| == |rows|
    ensures r.Success? ==> forall i :: 0 <= i < |rows| ==> r.value[i].quote == rows[i].body && r.value[i].author == rows[i].author
  {
    if !CanIngest(CsvIngestor, path) then Failure(NotSupported(path))
    else Success(seq(|rows|, i requires 0 <= i < |rows| => QuoteModel(rows[i].body, rows[i].author)))
  }

  /** `IngestorDOCX.parse`, given the texts of the document's paragraphs. */
  method ParseDocx(classes: CharClasses, path: string, paragraphs: seq<string>)
    returns (r: Result<seq<QuoteModel>, IngestError>)
    ensures !CanIngest(DocxIngestor, path) ==> r == Failure(NotSupported(path))
    ensures CanIngest(DocxIngestor, path) ==> r == Success(DocxQuotes(classes, paragraphs))
  {
    if !CanIngest(DocxIngestor, path) {
      return Failure(NotSupported(path));
    }
    var quotes: seq<QuoteModel> := [];
    for i := 0 to |paragraphs|
      invariant quotes == DocxQuotes(classes, paragraphs[..i])
    {
      var text := paragraphs[i];
      RecordsSnoc(classes, DocxRule, paragraphs, i);
      if text != [] {
        var parts := Split(text, '-');
        if |parts| == 2 {
          var quoteText := CleanData(classes, parts[0]);
          var authorText := CleanData(classes, parts[1]);
          quotes := quotes + [QuoteModel(quoteText, authorText)];
        }
      }
    }
    assert paragraphs[..|paragraphs|] == paragraphs;
    return Success(quotes);
  }

  /** `IngestorTXT.parse`, given the file's lines as `readlines()` returns them. */
  method ParseTxt(classes: CharClasses, path: string, lines: seq<string>)
    returns (r: Result<seq<QuoteModel>, IngestError>)
    ensures !CanIngest(TxtIngestor, path) ==> r == Failure(NotSupported(path))
    ensures CanIngest(TxtIngestor, path) ==> r == Success(TxtQuotes(classes, lines))
  {
    if !CanIngest(TxtIngestor, path) {
      return Failure(NotSupported(path));
    }
    var quoteModels: seq<QuoteModel> := [];
    for i := 0 to |lines|
      invariant quoteModels == TxtQuotes(classes, lines[..i])
    {
      var line := lines[i];
      RecordsSnoc(classes, TxtRule, lines, i);
      if CleanData(classes, line) != [] {
        var parts := Split(line, '-');
        if |parts| > 1 {
          var quote := CleanData(classes, parts[0]);
          var author := CleanData(classes, parts[1]);
          quoteModels := quoteModels + [QuoteModel(quote, author)];
        }
      }
    }
    assert lines[..|lines|] == lines;
    return Success(quoteModels);
  }

  /** `IngestorPDF.parse`, given what running `pdftotext -layout <source> -` produced:
      its standard output, or the text of the exception it raised. */
  method ParsePdf(classes: CharClasses, source: string, pdftotext: Result<string, string>)
    returns (r: Result<seq<QuoteModel>, IngestError>)
    ensures !CanIngest(PdfIngestor, source) ==> r == Failure(NotProcessed(source))
    ensures CanIngest(PdfIngestor, source) && pdftotext.Failure? ==> r == Failure(PdfProcessingError(pdftotext.error))
    ensures CanIngest(PdfIngestor, source) && pdftotext.Success? ==> r == Success(PdfQuotes(classes, pdftotext.value))
  {
    if !CanIngest(PdfIngestor, source) {
      return Failure(NotProcessed(source));
    }
    if pdftotext.Failure? {
      return Failure(PdfProcessingError(pdftotext.error));
    }
    var text := pdftotext.value;
    var lines := Split(text, '\n');
    var extractedQuotes: seq<QuoteModel> := [];
    for i := 0 to |lines|
      invariant extractedQuotes == Records(classes, PdfRule, lines[..i])
    {
      var line := lines[i];
      var elements := Split(Strip(classes, line), '-');
      PdfStep(classes, lines, i);
      if |elements| > 1 {
        var quote := CleanData(classes, elements[0]);
        var author := CleanData(classes, elements[1]);
        extractedQuotes := extractedQuotes + [QuoteModel(quote, author)];
      }
    }
    assert lines[..|lines|] == lines;
    return Success(extractedQuotes);
  }

  // ---------------------------------------------------------------- Dispatcher

  /** The if/elif chain of `Ingestor.parse`, on the extension: the ingestor it picks is the
      one whose allowed extension this is, and it picks none for any other extension. */
  function IngestorFor(extension: string): (r: Option<IngestorKind>)
    ensures forall k :: r == Some(k) <==> extension == AllowedExtensions(k)[0]
  {
    if extension == "csv" then Some(CsvIngestor)
    else if extension == "docx" then Some(DocxIngestor)
    else if extension == "txt" then Some(TxtIngestor)
    else if extension == "pdf" then Some(PdfIngestor)
    else None
  }

  /** `Ingestor.parse` chooses by the path's extension: an ingestor it picks accepts the
      path, and it picks none only when no ingestor does. */
  function SelectIngestor(path: string): (r: Option<IngestorKind>)
    ensures r.Some? ==> CanIngest(r.value, path)
    ensures r.None? ==> forall k :: !CanIngest(k, path)
  {
    GateByExtension(path);
    IngestorFor(InputExtension(path))
  }

  /** The dispatcher picks exactly the ingestor whose gate accepts the path, and none when
      no gate does. */
  lemma SelectIngestorMatchesGate(path: string)
    ensures forall k :: SelectIngestor(path) == Some(k) <==> CanIngest(k, path)
    ensures SelectIngestor(path).None? <==> forall k :: !CanIngest(k, path)
  {
    GateByExtension(path);
  }

  /** Each ingestor has one allowed extension, and its gate compares the path's with it. */
  lemma GateByExtension(path: string)
    ensures forall k :: CanIngest(k, path) <==> InputExtension(path) == AllowedExtensions(k)[0]
  {
  }

  /** What the libraries return for the path: CSV rows, DOCX paragraph texts, TXT lines and
      the outcome of the pdftotext run. Only the part the chosen ingestor reads matters. */
  datatype FileContents = FileContents(
    csvRows: seq<CsvRow>,
    docxParagraphs: seq<string>,
    txtLines: seq<string>,
    pdftotext: Result<string, string>)

  /** `Ingestor.parse`: the chosen ingestor's result, or the dispatcher's exception.
      The gate errors of the ingestors cannot come out of it. */
  method Parse(classes: CharClasses, path: string, contents: FileContents)
    returns (r: Result<seq<QuoteModel>, IngestError>)
    ensures SelectIngestor(path).None? ==> r == Failure(NoSuitableIngestor)
    ensures SelectIngestor(path) == Some(CsvIngestor) ==> r == ParseCsv(path, contents.csvRows) && r.Success?
    ensures SelectIngestor(path) == Some(DocxIngestor) ==> r == Success(DocxQuotes(classes, contents.docxParagraphs))
    ensures SelectIngestor(path) == Some(TxtIngestor) ==> r == Success(TxtQuotes(classes, contents.txtLines))
    ensures SelectIngestor(path) == Some(PdfIngestor) ==>
      r == match contents.pdftotext
           case Success(text) => Success(PdfQuotes(classes, text))
           case Failure(cause) => Failure(PdfProcessingError(cause))
    ensures r.Failure? ==> r.error == NoSuitableIngestor || r.error.PdfProcessingError?
  {
    var ingestor := SelectIngestor(path);
    SelectIngestorMatchesGate(path);
    match ingestor
    case None =>
      r := Failure(NoSuitableIngestor);
    case Some(CsvIngestor) =>
      r := ParseCsv(path, contents.csvRows);
    case Some(DocxIngestor) =>
      r := ParseDocx(classes, path, contents.docxParagraphs);
    case Some(TxtIngestor) =>
      r := ParseTxt(classes, path, contents.txtLines);
    case Some(PdfIngestor) =>
      r := ParsePdf(classes, path, contents.pdftotext);
  }
}
