# Meme generator core, modelled in Dafny

The system collects quotes from TXT, DOCX, PDF and CSV files. It overlays a randomly
chosen quote and its author on a resized picture and saves the result as a "meme" image.
This project models the two pieces of logic in it: the quote engine's text rules and the
meme generator's layout arithmetic. It proves what they promise.

- `QuoteEngine` (`quote_engine.dfy`) models `QuoteEngine/TextIngestor.py`:
  - the `QuoteModel` record and its repr;
  - the `input_extension` / `can_ingest` gate;
  - the `clean_data` normaliser;
  - the per-line and per-paragraph "quote - author" rules of the TXT, DOCX and PDF
    ingestors, and their parse loops, written as methods with loop invariants;
  - the CSV ingestor's gate and row mapping;
  - the `Ingestor.parse` dispatcher.

  File reading is replaced by the content it yields:
  - the lines `readlines()` returns;
  - the paragraph texts of the document;
  - the output of `pdftotext`, or the error it raised;
  - the CSV rows.
- `MemeEngine` (`meme_engine.dfy`) models `MemeEngine/MemeGenerator.py`:
  - the `MemeGenerator` class with its fields;
  - `load_and_resize_image`, with the width clamp;
  - `prepare_fonts`;
  - `make_meme`: the anchor, offset and colour arithmetic that keeps the text inside the
    image, and the path it returns.

  PIL is replaced by numbers:
  - the image size and measured text widths are parameters;
  - every `random.randint` is a caller-chosen draw, mapped into its range;
  - `RandIntCovers` shows that no value of the range is lost.
- Supporting modules model the Python built-ins the core relies on:
  - `PyStrings`: `str.split` on one character, `join` and `strip`. The Unicode
    `isprintable` / `isspace` tables are a parameter (`CharClasses`), so every property
    holds for any such table.
  - `PyPaths`: POSIX `os.path.join`, `str(pathlib.Path(p))` and `pathlib.Path(p).name`.
  - `Seqs`: filtering, and the "append the accepted ones" pattern of the parse loops.
  - `Wrappers`: `Option` / `Result`. Exceptions become `Failure` values.

## Model

| member | source | states |
|---|---|---|
| QuoteEngine.Repr | QuoteEngine/TextIngestor.py:257-264 | the repr starts with `Quote Object: "` and ends with the author; when the quote holds no '"', the first '"' after the prefix is the one closing the quote |
| QuoteEngine.ReprRoundTrip | QuoteEngine/TextIngestor.py:257-264 | the repr `Quote Object: "<quote>" - <author>` can be read back into the record whenever the quote holds no '"' |
| QuoteEngine.ReprInjective | QuoteEngine/TextIngestor.py:264 | two records whose quotes hold no '"' and that have the same repr are equal |
| QuoteEngine.ReprAmbiguousWithQuoteMark | QuoteEngine/TextIngestor.py:264 | once a quote may contain '"', the repr no longer determines the record: for all a, b, c the distinct records (a + `" - ` + b, c) and (a, b + `" - ` + c) have the same repr |
| QuoteEngine.InputExtension | QuoteEngine/TextIngestor.py:58 | `path.split('.')[-1]` is the longest dot-free suffix of the path: either it is preceded by a '.' or it is the whole path |
| QuoteEngine.InputExtensionWithoutDot | QuoteEngine/TextIngestor.py:58 | a path without a '.' is its own extension |
| QuoteEngine.InputExtensionAfterDot | QuoteEngine/TextIngestor.py:58 | `stem + "." + ext` has extension `ext` whenever `ext` holds no '.', whatever dots the stem contains |
| QuoteEngine.CanIngest | QuoteEngine/TextIngestor.py:19-31 | the gate accepts a path exactly when the path is the ingestor's allowed extension or ends with '.' followed by it (exact, case-sensitive) |
| QuoteEngine.InputExtensionIff | QuoteEngine/TextIngestor.py:58 | for a dot-free extension e, `input_extension` returns e exactly when the path is e or ends with "." + e |
| QuoteEngine.IngestorFor | QuoteEngine/TextIngestor.py:226-235 | the if/elif chain picks ingestor k exactly when the extension is k's allowed extension, and none for any other extension |
| QuoteEngine.SelectIngestor | QuoteEngine/TextIngestor.py:224-235 | an ingestor the dispatcher picks accepts the path through its own gate, and it picks none only when no ingestor's gate accepts the path |
| QuoteEngine.SelectIngestorMatchesGate | QuoteEngine/TextIngestor.py:224-235 | the dispatcher chooses ingestor k exactly when k's `can_ingest` (exact, case-sensitive membership in `allowed_extensions`) accepts the path, and raises exactly when no gate accepts it |
| QuoteEngine.CleanData | QuoteEngine/TextIngestor.py:72-79 | the output holds no character of the unwanted set, only printable characters, and no leading or trailing whitespace |
| QuoteEngine.CleanDataDropsOnly | QuoteEngine/TextIngestor.py:72-79 | `clean_data` only removes characters: the output is a sub-multiset of the input, and every wanted, printable, non-space character of the input survives |
| QuoteEngine.CleanDataEmptyIff | QuoteEngine/TextIngestor.py:206 | the TXT test `if cls.clean_data(line)` passes exactly when the line holds a wanted, printable, non-space character |
| QuoteEngine.CleanDataFixpoint | QuoteEngine/TextIngestor.py:72-79 | a text that already satisfies the output guarantee is returned unchanged, so the clean texts are exactly the fixed points |
| QuoteEngine.CleanDataIdempotent | QuoteEngine/TextIngestor.py:61-79 | `clean_data(clean_data(s)) == clean_data(s)` |
| QuoteEngine.TxtLine | QuoteEngine/TextIngestor.py:205-211 | one TXT line: a record it yields has a clean quote and a clean author (the `clean_data` output guarantee) |
| QuoteEngine.DocxParagraph | QuoteEngine/TextIngestor.py:97-103 | one DOCX paragraph: a record it yields has a clean quote and a clean author |
| QuoteEngine.PdfLine | QuoteEngine/TextIngestor.py:172-181 | one PDF line: a record it yields has a clean quote and a clean author |
| QuoteEngine.TxtLineRule | QuoteEngine/TextIngestor.py:205-211 | a TXT line yields a record exactly when its cleaned form is non-empty and it holds a '-'; the record is the cleaned text before the first '-' and the cleaned text between the first and second '-'; later pieces are dropped |
| QuoteEngine.DocxParagraphRule | QuoteEngine/TextIngestor.py:97-103 | a paragraph yields a record exactly when it holds exactly one '-' (empty paragraphs and those with 0 or 2+ hyphens are skipped); the quote is the cleaned text before the '-', the author the cleaned text after it |
| QuoteEngine.PdfLineRule | QuoteEngine/TextIngestor.py:172-181 | a PDF line yields a record exactly when its stripped form holds a '-'; the record is cut around the first '-' of the stripped line; otherwise the IndexError is caught and the line is skipped |
| QuoteEngine.PdfLineKeptIffDash | QuoteEngine/TextIngestor.py:172-181 | because '-' is not whitespace, a PDF line yields a record exactly when it contains a '-'; empty lines and dash-free lines are skipped |
| QuoteEngine.PdfLoneDashRecord | QuoteEngine/TextIngestor.py:172-181 | a line consisting of a lone '-' still yields a record, with an empty quote and an empty author |
| QuoteEngine.PdfStep | QuoteEngine/TextIngestor.py:172-178 | one pass of the PDF loop appends the line's record when `PdfLine` yields one (the stripped line has more than one piece) and nothing otherwise |
| QuoteEngine.RecordsSnoc | QuoteEngine/TextIngestor.py:211 | handling one more line appends that line's record, if it yields one, to the records of the lines before it |
| QuoteEngine.RecordsOrigins | QuoteEngine/TextIngestor.py:97-103 | a document never yields more records than it has lines or paragraphs; each record comes from an accepted line, and records keep line order; a line is the source of a record exactly when the rule accepts it |
| QuoteEngine.TxtQuotesFromLines | QuoteEngine/TextIngestor.py:205-213 | TXT records correspond one-to-one, in line order, to the lines with a non-empty cleaned form and a '-'; each record is cut around the first '-' of its line; there are never more records than lines |
| QuoteEngine.RecordsReprRoundTrip | QuoteEngine/TextIngestor.py:257-264 | the repr of every record the TXT, DOCX and PDF ingestors produce reads back into that record, because `clean_data` removes '"' |
| QuoteEngine.ParseCsv | QuoteEngine/TextIngestor.py:115-122 | raises `File not supported` exactly when the extension is not `csv`; otherwise yields one record per row, with body and author taken verbatim |
| QuoteEngine.ParseDocx | QuoteEngine/TextIngestor.py:88-105 | raises `File not supported` when the gate rejects the path; otherwise the loop returns exactly the DOCX records of the paragraphs |
| QuoteEngine.ParseTxt | QuoteEngine/TextIngestor.py:195-213 | raises `File not supported` when the gate rejects the path; otherwise the loop returns exactly the TXT records of the lines |
| QuoteEngine.ParsePdf | QuoteEngine/TextIngestor.py:156-186 | raises `File not processed` when the gate rejects the source; if `pdftotext` fails, its error is wrapped as `Error occurred while processing PDF`; otherwise returns exactly the PDF records of the output split on '\n' |
| QuoteEngine.Parse | QuoteEngine/TextIngestor.py:221-238 | `csv`, `docx`, `txt` and `pdf` go to the matching ingestor and its result is returned unchanged; any other extension raises `No suitable ingestor found`; the ingestors' own gate errors can never come out |
| PyStrings.SplitPieces | QuoteEngine/TextIngestor.py:99 | `s.split(c)` has one more piece than there are c's in s, and no piece contains c |
| PyStrings.JoinSplit | QuoteEngine/TextIngestor.py:99 | joining the pieces of `s.split(c)` with c gives s back |
| PyStrings.SplitLast | QuoteEngine/TextIngestor.py:58 | the last piece of a split is the suffix after the last separator, or the whole string |
| PyStrings.StripFacts | QuoteEngine/TextIngestor.py:79 | `strip` only removes characters, keeps every non-space character, is empty exactly on all-space strings, and leaves a string without outer spaces unchanged |
| MemeEngine.ClampWidth | MemeEngine/MemeGenerator.py:60-61 | the width used is always in [1, 500]; a requested width in that range is kept, and any other becomes 500 |
| MemeEngine.AuthorFontSize | MemeEngine/MemeGenerator.py:90 | `int(size * 0.8)` lies in [0, size] and is the truncation of 4/5 of the size (24 for 30) |
| MemeEngine.RandInt | MemeEngine/MemeGenerator.py:126 | a `randint(low, high)` draw lies in [low, high] |
| MemeEngine.RandIntCovers | MemeEngine/MemeGenerator.py:126 | every value in [low, high] is the result of some draw |
| MemeEngine.AnchorX | MemeEngine/MemeGenerator.py:119-128 | `10 <= x <= max(10, img_width - max_text_width)`; if `img_width - max_text_width > 10` the wider line ends inside the image (`x + max_text_width <= img_width`); otherwise `x == 10` |
| MemeEngine.AnchorXCovers | MemeEngine/MemeGenerator.py:122-128 | every column from 10 to `img_width - max_text_width` is a possible x |
| MemeEngine.AnchorY | MemeEngine/MemeGenerator.py:123-133 | for y, the quote's bottom edge (anchor "lb"): `10 + font_size <= y <= max(10 + font_size, img_height - 2*font_size)`; if there is room, the two font sizes below y fit in the image; otherwise `y == 10 + font_size` |
| MemeEngine.AnchorYCovers | MemeEngine/MemeGenerator.py:123-133 | every row from `10 + font_size` to `img_height - 2*font_size` is a possible y |
| MemeEngine.AnchorYWithFontSize | MemeEngine/MemeGenerator.py:123-133 | with font size 30, `40 <= y <= max(40, img_height - 60)`, and `y == 40` when the image is at most 100 high |
| MemeEngine.AuthorColour | MemeEngine/MemeGenerator.py:137 | every component of the author colour is in [0, 255] |
| MemeEngine.Captions | MemeEngine/MemeGenerator.py:134-137 | the quote is anchored "lb" at (x, y) in (250, 240, 255); "- author" is anchored "lt" at the same x and at y + 5, in a colour with every component in range; x and y are the `AnchorX` / `AnchorY` placements, so `10 <= x <= max(10, img_width - max_text_width)` with `x == 10` when there is no room, and `10 + font_size <= y <= max(10 + font_size, img_height - 2*font_size)` with `y == 10 + font_size` when there is no room |
| MemeEngine.AuthorLineFits | MemeEngine/MemeGenerator.py:130-137 | on an image more than 100 high, y + 5 + 24 <= height: the author line's top (anchor "lt", 5 below the quote's bottom edge) plus its font size stays inside the image |
| MemeEngine.TempDirAsWritten | MemeEngine/MemeGenerator.py:142 | the directory handed to `NamedTemporaryFile` as written, `output_folder.name`, never holds a '/': it is one path component, not the output directory |
| MemeEngine.ReturnedPath | MemeEngine/MemeGenerator.py:146 | the returned path is `str(output_folder)`, one '/', and then the saved file's name, with no further '/' |
| MemeEngine.ReturnedPathShape | MemeEngine/MemeGenerator.py:146 | the returned path is `str(output_folder) + "/" + "meme_" + <random part> + ".jpg"`, whichever directory the file was created in |
| MemeEngine.SavedElsewhereAsWritten | MemeEngine/MemeGenerator.py:142 | as written, with output directory "a/b" the temporary file is created as "b/meme_….jpg" while "a/b/meme_….jpg" is returned, and the two differ |
| MemeEngine.SingleComponentDirConsistent | MemeEngine/MemeGenerator.py:139-146 | for a relative output directory with one kept component (such as "output" or "./output"), the file created as written and the returned path agree |
| MemeEngine.DefaultOutputDirConsistent | MemeEngine/MemeGenerator.py:34 | with the default output directory "./output", the meme is created as "output/meme_<rnd>.jpg", which is the path returned |
| MemeEngine.SavedWhereReturned | MemeEngine/MemeGenerator.py:139-146 | when the file is created in the output directory itself, the returned path is where it was saved, for every directory except a bare root |
| MemeEngine.MemeGenerator.constructor | MemeEngine/MemeGenerator.py:34-47 | sets the output directory; no image; empty quote and author; font path `<module dir>/fonts/FiraSans-Medium.ttf`; no fonts |
| MemeEngine.MemeGenerator.LoadAndResizeImage | MemeEngine/MemeGenerator.py:49-74 | if the image cannot be opened, the error is re-raised and the image is unchanged; otherwise the image becomes the resized one, with the clamped width (in [1, 500]) and the given height |
| MemeEngine.MemeGenerator.PrepareFonts | MemeEngine/MemeGenerator.py:76-93 | sets quote, author and font size 30; if the font loads, sets a quote font of size 30 and an author font of size 24; otherwise re-raises FreeType's error unchanged and leaves both fonts unchanged; nothing else changes |
| MemeEngine.MemeGenerator.MakeMeme | MemeEngine/MemeGenerator.py:95-150 | the error from opening the image, or FreeType's error from loading the font, is re-raised unchanged and nothing is saved; on success the image carries exactly the two captions, the file is saved in the output directory, and the returned path is `str(output_folder)/meme_<random>.jpg` |

## Left out

- File and process I/O is not modelled: `open(...).readlines()`, `docx.Document`, `pd.read_csv`, and the `pdftotext` subprocess with its path building (QuoteEngine/TextIngestor.py:165-170). Each parser receives what these return.
- QuoteEngine.ParseCsv: the pandas parsing is not modelled. It receives the `body`/`author` columns row by row, so a CSV file without those columns, or one that does not parse, raises nothing in the model.
- QuoteEngine.Parse: the errors the libraries raise on a missing or unreadable file are not modelled. The PDF ingestor's `pdftotext` failure is the exception.
- The commented-out earlier PDF ingestor (QuoteEngine/TextIngestor.py:126-149) and the abstract `IngestorInterface.parse` are not modelled.
- The `print` calls and both `__main__` blocks are not modelled: they are only output.
- MemeEngine.AuthorLineFits: the rendered height of the author line is not modelled. The line is taken to be as high as its font size (24), so the lemma proves y + 5 + 24 <= height rather than that every pixel of the drawn text is inside the image.
- Windows path rules are not modelled. `os.path.join` and `pathlib` follow POSIX rules in the model (the '/' separator), although the PDF ingestor names a Windows build of `pdftotext` (QuoteEngine/TextIngestor.py:167). On Windows, `str(Path("a/b"))` is `a\b` and joins insert '\'.
- Unicode `str.isprintable` and `str.isspace` are parameters, not tables. `PdfLineKeptIffDash` and `PdfLoneDashRecord` assume that '-' is not whitespace, which Python's tables satisfy.
- PIL is not modelled: `Image.open`, `resize`, `textbbox`, `ImageDraw.text`, `FreeTypeFont` and `save`. The image size, the measured text widths, whether the image opens and whether the font loads are all parameters. Errors from the later PIL calls (resize, measuring, drawing, saving) are not modelled.
- MemeEngine.MemeGenerator.LoadAndResizeImage: the height `int(width * (h / w))` uses floating-point division. The model takes it as a parameter instead of computing it.
- Randomness is not modelled as a distribution. Each `random.randint` is a caller-chosen draw mapped into its range, and the random part of the temporary file name is a parameter.
- `tempfile` and `mkdir` side effects are not modelled: the creation of the output directory, and the temporary file's creation, absolute name and deletion. Only the directory and name the file path is built from are modelled.
- MemeEngine.MemeGenerator.MakeMeme creates the temporary file in the output directory (`TempDir`), not in the directory the source names (`TempDirAsWritten`). See "## Findings".
- The Flask application (`app.py`) and the command-line entry point (`main.py`) are not part of this model. They are routing, downloads, directory walks and random choice around the two engines.

## Findings

| source | as written | input that shows it | evidently intended | confidence | as-written member | corrected member |
|---|---|---|---|---|---|---|
| MemeEngine/MemeGenerator.py:142 | the temporary file is created in `output_folder.name`, the last component of the output directory, relative to the working directory | `output_dir = "a/b"`: the file is created as `b/meme_<rnd>.jpg`, or fails when the working directory has no `b`, while `a/b/meme_<rnd>.jpg` is returned (the default `./output` hides this) | create the file in `output_folder`, the directory the returned path names | not executed | MemeEngine.SavedElsewhereAsWritten | MemeEngine.SavedWhereReturned |
