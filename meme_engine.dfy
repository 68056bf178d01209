/** The meme generator: the width clamp of `load_and_resize_image`, the font set-up of
    `prepare_fonts`, the anchor, offset and colour arithmetic of `make_meme`, and the path
    it returns. Decoding, resizing, measuring, drawing and saving belong to PIL and are not
    modelled: image sizes and text widths arrive as numbers, random draws as caller-chosen
    naturals. */
module MemeEngine {
  import opened Wrappers
  import opened PyPaths

  /** Widths outside [1, MAX_WIDTH] are replaced by MAX_WIDTH. */
  const MAX_WIDTH: int := 500
  /** The gap `make_meme` keeps between the text and the left and top edges. */
  const MARGIN: int := 10
  /** The quote font size `prepare_fonts` sets. */
  const FONT_SIZE: int := 30
  /** The gap between the bottom edge of the quote and the top of the author line. */
  const AUTHOR_OFFSET: int := 5
  /** The `output_dir` default of the constructor. */
  const DEFAULT_OUTPUT_DIR: string := "./output"

  function Max(a: int, b: int): int
  {
    if a >= b then a else b
  }

  // ---------------------------------------------------------------- Values

  /** An RGB fill colour. */
  datatype Rgb = Rgb(red: int, green: int, blue: int)

  /** The fill of the quote text. */
  const QUOTE_COLOUR: Rgb := Rgb(250, 240, 255)

  predicate IsColour(c: Rgb)
  {
    0 <= c.red <= 255 && 0 <= c.green <= 255 && 0 <= c.blue <= 255
  }

  /** A FreeType font: the file it was loaded from and its size. */
  datatype Font = Font(path: string, size: int)

  /** One `ImageDraw.text` call: the text, its font, the anchor point and anchor kind, and
      the fill. */
  datatype Caption = Caption(text: string, font: Font, x: int, y: int, anchor: string, fill: Rgb)

  /** An image as the generator sees it: its size and the captions drawn on it. */
  datatype Image = Image(width: int, height: int, captions: seq<Caption>)

  // ---------------------------------------------------------------- Arithmetic

  /** The width `load_and_resize_image` resizes to: the requested width when it lies in
      [1, MAX_WIDTH], MAX_WIDTH otherwise. */
  function ClampWidth(width: int): (w: int)
    ensures 1 <= w <= MAX_WIDTH
    ensures 1 <= width <= MAX_WIDTH ==> w == width
    ensures !(1 <= width <= MAX_WIDTH) ==> w == MAX_WIDTH
  {
    if width > 500 || width < 1 then 500 else width
  }

  /** `int(size * 0.8)`: the author font size, truncated towards zero. */
  function AuthorFontSize(size: int): (s: int)
    requires size >= 0
    ensures 0 <= s <= size
    ensures 5 * s <= 4 * size < 5 * s + 5
  {
    size * 8 / 10
  }

  /** `random.randint(low, high)`: `draw` stands for the generator's choice. */
  function RandInt(low: int, high: int, draw: nat): (v: int)
    requires low <= high
    ensures low <= v <= high
  {
    low + draw % (high - low + 1)
  }

  /** Every value of the range is the outcome of some draw, so the model does not narrow
      what `randint` can return. */
  lemma RandIntCovers(low: int, high: int, v: int)
    requires low <= v <= high
    ensures RandInt(low, high, v - low) == v
  {
    assert (v - low) % (high - low + 1) == v - low;
  }

  /** The x of the text anchor: a random column from MARGIN to the last one at which the
      wider of the two lines still fits, or MARGIN when no column beyond it fits. */
  function AnchorX(imgWidth: int, maxTextWidth: int, draw: nat): (x: int)
    ensures MARGIN <= x <= Max(MARGIN, imgWidth - maxTextWidth)
    ensures imgWidth - maxTextWidth > MARGIN ==> x + maxTextWidth <= imgWidth
    ensures imgWidth - maxTextWidth <= MARGIN ==> x == MARGIN
  {
    var maxX := Max(MARGIN, imgWidth - maxTextWidth);
    if maxX > MARGIN then RandInt(MARGIN, maxX, draw) else MARGIN
  }

  /** The y of the quote's bottom edge (anchor "lb": left, bottom): a random row that leaves one font size above it for the
      quote and two below it for the author line, or MARGIN + fontSize when the image is too
      short for that. */
  function AnchorY(imgHeight: int, fontSize: int, draw: nat): (y: int)
    ensures MARGIN + fontSize <= y <= Max(MARGIN + fontSize, imgHeight - 2 * fontSize)
    ensures imgHeight - 2 * fontSize > MARGIN + fontSize ==> y + 2 * fontSize <= imgHeight
    ensures imgHeight - 2 * fontSize <= MARGIN + fontSize ==> y == MARGIN + fontSize
  {
    var maxY := Max(MARGIN + fontSize, imgHeight - 2 * fontSize);
    if maxY > MARGIN + fontSize then RandInt(MARGIN + fontSize, maxY, draw) else MARGIN + fontSize
  }

  /** Every column in the allowed range is a possible anchor. */
  lemma AnchorXCovers(imgWidth: int, maxTextWidth: int, x: int)
    requires MARGIN <= x <= imgWidth - maxTextWidth
    ensures exists draw: nat :: AnchorX(imgWidth, maxTextWidth, draw) == x
  {
    if imgWidth - maxTextWidth > MARGIN {
      RandIntCovers(MARGIN, imgWidth - maxTextWidth, x);
      assert AnchorX(imgWidth, maxTextWidth, x - MARGIN) == x;
    } else {
      assert AnchorX(imgWidth, maxTextWidth, 0) == x;
    }
  }

  /** Every row in the allowed range is a possible anchor. */
  lemma AnchorYCovers(imgHeight: int, fontSize: int, y: int)
    requires MARGIN + fontSize <= y <= imgHeight - 2 * fontSize
    ensures exists draw: nat :: AnchorY(imgHeight, fontSize, draw) == y
  {
    if imgHeight - 2 * fontSize > MARGIN + fontSize {
      RandIntCovers(MARGIN + fontSize, imgHeight - 2 * fontSize, y);
      assert AnchorY(imgHeight, fontSize, y - MARGIN - fontSize) == y;
    } else {
      assert AnchorY(imgHeight, fontSize, 0) == y;
    }
  }

  /** With the generator's sizes, the quote's bottom edge is at least 40 and at most
      max(40, height - 60), and it is exactly 40 when the image is at most 100 high. */
  lemma AnchorYWithFontSize(imgHeight: int, draw: nat)
    ensures 40 <= AnchorY(imgHeight, FONT_SIZE, draw) <= Max(40, imgHeight - 60)
    ensures imgHeight <= 100 ==> AnchorY(imgHeight, FONT_SIZE, draw) == 40
  {
  }

  /** The random draws `make_meme` makes, in call order. */
  datatype Draws = Draws(x: nat, y: nat, red: nat, green: nat, blue: nat)

  /** The colour of the author line: three `randint(0, 255)` draws. */
  function AuthorColour(d: Draws): (c: Rgb)
    ensures IsColour(c)
  {
    Rgb(RandInt(0, 255, d.red), RandInt(0, 255, d.green), RandInt(0, 255, d.blue))
  }

  /** The two captions `make_meme` draws: the quote anchored left-bottom at (x, y) in
      QUOTE_COLOUR, and "- author" anchored left-top at (x, y + 5) in a random colour. */
  function Captions(text: string, author: string, quoteFont: Font, authorFont: Font,
                    imgWidth: int, imgHeight: int, textWidth: nat, authorWidth: nat,
                    fontSize: int, d: Draws): (cs: seq<Caption>)
    ensures |cs| == 2
    ensures cs[0].text == text && cs[0].font == quoteFont && cs[0].anchor == "lb"
    ensures cs[1].text == "- " + author && cs[1].font == authorFont && cs[1].anchor == "lt"
    ensures cs[1].x == cs[0].x && cs[1].y == cs[0].y + AUTHOR_OFFSET
    ensures cs[0].fill == QUOTE_COLOUR && IsColour(cs[1].fill)
    ensures cs[0].x == AnchorX(imgWidth, Max(textWidth, authorWidth), d.x)
    ensures cs[0].y == AnchorY(imgHeight, fontSize, d.y)
    ensures MARGIN <= cs[0].x <= Max(MARGIN, imgWidth - Max(textWidth, authorWidth))
    ensures imgWidth - Max(textWidth, authorWidth) > MARGIN ==> cs[0].x + Max(textWidth, authorWidth) <= imgWidth
    ensures imgWidth - Max(textWidth, authorWidth) <= MARGIN ==> cs[0].x == MARGIN
    ensures MARGIN + fontSize <= cs[0].y <= Max(MARGIN + fontSize, imgHeight - 2 * fontSize)
    ensures imgHeight - 2 * fontSize > MARGIN + fontSize ==> cs[0].y + 2 * fontSize <= imgHeight
    ensures imgHeight - 2 * fontSize <= MARGIN + fontSize ==> cs[0].y == MARGIN + fontSize
  {
    var x := AnchorX(imgWidth, Max(textWidth, authorWidth), d.x);
    var y := AnchorY(imgHeight, fontSize, d.y);
    [Caption(text, quoteFont, x, y, "lb", QUOTE_COLOUR),
     Caption("- " + author, authorFont, x, y + AUTHOR_OFFSET, "lt", AuthorColour(d))]
  }

  /** With the generator's fonts, on an image taller than 100 the author line, placed 5
      below the quote's bottom edge and taken to be as high as its font size (24), ends
      inside the image: y + 5 + 24 <= height. */
  lemma AuthorLineFits(imgHeight: int, draw: nat)
    requires imgHeight > 100
    ensures AnchorY(imgHeight, FONT_SIZE, draw) + AUTHOR_OFFSET + AuthorFontSize(FONT_SIZE) <= imgHeight
  {
  }

  // ---------------------------------------------------------------- Output path

  /** The prefix and suffix of the temporary file name. */
  const MEME_PREFIX: string := "meme_"
  const MEME_SUFFIX: string := ".jpg"

  /** The file name `NamedTemporaryFile` makes from the random part `rnd`. */
  function MemeFileName(rnd: string): string
  {
    MEME_PREFIX + rnd + MEME_SUFFIX
  }

  /** The directory passed to `NamedTemporaryFile`, as written: the last component of the
      output directory. */
  function TempDirAsWritten(outputDir: string): (d: string)
    ensures '/' !in d
  {
    PathNameNoSlash(outputDir);
    PathName(outputDir)
  }

  /** The directory the temporary file is meant to be created in: the output directory,
      which is also where the returned path points. */
  function TempDir(outputDir: string): string
  {
    PathStr(outputDir)
  }

  /** The path `make_meme` returns: the output directory, a '/', and the name of the file.
      Everything after that '/' is the saved file's name, so no further '/' follows. */
  function ReturnedPath(outputDir: string, savedTo: string): (r: string)
    ensures var n := |PathStr(outputDir)|;
      && |r| > n && r[..n] == PathStr(outputDir) && r[n] == '/'
      && r[n + 1..] == PathName(savedTo) && '/' !in r[n + 1..]
  {
    PathNameNoSlash(savedTo);
    PathStr(outputDir) + "/" + PathName(savedTo)
  }

  /** The returned path ends with the meme file name, whatever the directory. */
  lemma ReturnedPathShape(outputDir: string, rnd: string)
    requires '/' !in rnd
    ensures ReturnedPath(outputDir, PathJoin(TempDirAsWritten(outputDir), MemeFileName(rnd)))
         == PathStr(outputDir) + "/" + MEME_PREFIX + rnd + MEME_SUFFIX
    ensures ReturnedPath(outputDir, PathJoin(TempDir(outputDir), MemeFileName(rnd)))
         == PathStr(outputDir) + "/" + MEME_PREFIX + rnd + MEME_SUFFIX
  {
    PlainMemeFileName(rnd);
    NameOfJoin(TempDirAsWritten(outputDir), MemeFileName(rnd));
    NameOfJoin(TempDir(outputDir), MemeFileName(rnd));
  }

  lemma PlainMemeFileName(rnd: string)
    requires '/' !in rnd
    ensures IsPlainName(MemeFileName(rnd))
  {
    var n := MemeFileName(rnd);
    assert n[0] == 'm' && |n| > 1;
    forall i | 0 <= i < |n| ensures n[i] != '/' {
      if i < |MEME_PREFIX| {
      } else if i < |MEME_PREFIX| + |rnd| {
        assert n[i] == rnd[i - |MEME_PREFIX|];
      } else {
      }
    }
  }

  /** As written, the file is saved under the last component of the output directory, not
      under the directory the returned path names: with output directory "a/b" the file is
      created as "b/meme_<rnd>.jpg" (relative to the working directory, where no "b" may
      exist) while "a/b/meme_<rnd>.jpg" is returned. */
  lemma SavedElsewhereAsWritten(a: string, b: string, rnd: string)
    requires IsPlainName(a) && IsPlainName(b) && '/' !in rnd
    ensures PathJoin(TempDirAsWritten(a + "/" + b), MemeFileName(rnd)) == b + "/" + MemeFileName(rnd)
    ensures ReturnedPath(a + "/" + b, PathJoin(TempDirAsWritten(a + "/" + b), MemeFileName(rnd)))
         == a + "/" + b + "/" + MemeFileName(rnd)
    ensures PathJoin(TempDirAsWritten(a + "/" + b), MemeFileName(rnd))
         != ReturnedPath(a + "/" + b, PathJoin(TempDirAsWritten(a + "/" + b), MemeFileName(rnd)))
  {
    var name := MemeFileName(rnd);
    PlainMemeFileName(rnd);
    NestedPath(a, b);
    JoinAfterName(b, name);
    NestedPath(b, name);
    assert |b + "/" + name| < |a + "/" + b + "/" + name|;
  }

  /** For a relative output directory with a single kept component, such as "output" or
      the default "./output", the two directories agree even as written: the meme is saved
      as "<name>/meme_<rnd>.jpg", which is the path returned. */
  lemma SingleComponentDirConsistent(outputDir: string, dir: string, rnd: string)
    requires PathRoot(outputDir) == [] && PathTail(outputDir) == [dir] && IsPlainName(dir)
    requires '/' !in rnd
    ensures PathJoin(TempDirAsWritten(outputDir), MemeFileName(rnd)) == dir + "/" + MemeFileName(rnd)
    ensures ReturnedPath(outputDir, PathJoin(TempDirAsWritten(outputDir), MemeFileName(rnd)))
         == dir + "/" + MemeFileName(rnd)
  {
    var name := MemeFileName(rnd);
    SingleComponent(outputDir, dir);
    PlainMemeFileName(rnd);
    JoinAfterName(dir, name);
    NameOfJoin(dir, name);
  }

  /** With the constructor's default output directory the meme is saved as
      "output/meme_<rnd>.jpg", which is the path returned. */
  lemma DefaultOutputDirConsistent(rnd: string)
    requires '/' !in rnd
    ensures PathJoin(TempDirAsWritten(DEFAULT_OUTPUT_DIR), MemeFileName(rnd)) == "output" + "/" + MemeFileName(rnd)
    ensures ReturnedPath(DEFAULT_OUTPUT_DIR, PathJoin(TempDirAsWritten(DEFAULT_OUTPUT_DIR), MemeFileName(rnd)))
         == "output" + "/" + MemeFileName(rnd)
  {
    DefaultOutputDirShape();
    SingleComponentDirConsistent(DEFAULT_OUTPUT_DIR, "output", rnd);
  }

  /** "./output" is a relative path with the single kept component "output". */
  lemma DefaultOutputDirShape()
    ensures PathRoot(DEFAULT_OUTPUT_DIR) == [] && PathTail(DEFAULT_OUTPUT_DIR) == ["output"]
    ensures IsPlainName("output")
  {
    var dir := "output";
    assert IsPlainName(dir);
    assert DEFAULT_OUTPUT_DIR == "./" + dir;
    DotSlashTail(dir);
  }

  /** Saved in the output directory, the meme is where the returned path says, for every
      output directory that is not a bare root ("/" or "//"). */
  lemma SavedWhereReturned(outputDir: string, rnd: string)
    requires '/' !in rnd
    requires PathRoot(outputDir) == [] || PathTail(outputDir) != []
    ensures PathJoin(TempDir(outputDir), MemeFileName(rnd))
         == ReturnedPath(outputDir, PathJoin(TempDir(outputDir), MemeFileName(rnd)))
  {
    var d, name := TempDir(outputDir), MemeFileName(rnd);
    PlainMemeFileName(rnd);
    PathStrNoTrailingSlash(outputDir);
    JoinAfterName(d, name);
    NameOfJoin(d, name);
  }

  /** A directory not ending in '/' and a relative name are joined with one '/'. */
  lemma JoinAfterName(dir: string, name: string)
    requires dir != [] && dir[|dir| - 1] != '/'
    requires IsPlainName(name)
    ensures PathJoin(dir, name) == dir + "/" + name
  {
    assert name[0] in name;
  }

  // ---------------------------------------------------------------- The generator

  /** `MemeGenerator`: the output directory, the font file, and what `load_and_resize_image`
      and `prepare_fonts` leave behind for `make_meme`. `fontSize` is None until
      `prepare_fonts` first creates the attribute. */
  class MemeGenerator {
    var outputDir: string
    var image: Option<Image>
    var quote: string
    var author: string
    var fontPath: string
    var fontSize: Option<int>
    var fontQuote: Option<Font>
    var fontAuthor: Option<Font>

    /** `__init__`; `moduleDir` is the directory of the generator's source file. Python's
        default for `outputDir` is DEFAULT_OUTPUT_DIR (see DefaultOutputDirConsistent). */
    constructor (outputDir: string, moduleDir: string)
      ensures this.outputDir == outputDir
      ensures image == None && quote == "" && author == ""
      ensures fontPath == PathJoin(PathJoin(moduleDir, "fonts"), "FiraSans-Medium.ttf")
      ensures fontSize == None && fontQuote == None && fontAuthor == None
    {
      this.outputDir := outputDir;
      image := None;
      quote := "";
      author := "";
      fontPath := PathJoin(PathJoin(moduleDir, "fonts"), "FiraSans-Medium.ttf");
      fontSize := None;
      fontQuote := None;
      fontAuthor := None;
    }

    /** `load_and_resize_image`. `loaded` is what `Image.open` gave: the image, or the
        message of the error it raised (which is re-raised). `newHeight` is the height PIL
        computed as `int(width * (h / w))` for the clamped width. */
    method LoadAndResizeImage(loaded: Result<Image, string>, width: int, newHeight: int)
      returns (r: Result<(), string>)
      modifies this`image
      ensures loaded.Failure? ==> r == Failure(loaded.error) && image == old(image)
      ensures loaded.Success? ==> r.Success? && image == Some(Image(ClampWidth(width), newHeight, []))
      ensures image.Some? && loaded.Success? ==> 1 <= image.value.width <= MAX_WIDTH
    {
      if loaded.Failure? {
        return Failure(loaded.error);
      }
      image := Some(loaded.value);
      var w := width;
      if w > 500 || w < 1 {
        w := 500;
      }
      image := Some(Image(w, newHeight, []));
      return Success(());
    }

    /** `prepare_fonts`. `font` is what FreeType's loading of the font file gave: success,
        or the message of the exception it raised, which is re-raised unchanged before
        either font is replaced (both fonts come from the same file). */
    method PrepareFonts(quote: string, author: string, font: Result<(), string>)
      returns (r: Result<(), string>)
      modifies this`quote, this`author, this`fontSize, this`fontQuote, this`fontAuthor
      ensures this.quote == quote && this.author == author && fontSize == Some(FONT_SIZE)
      ensures font.Success? ==> r.Success? && fontQuote == Some(Font(fontPath, 30)) && fontAuthor == Some(Font(fontPath, 24))
      ensures font.Failure? ==> r == Failure(font.error) && fontQuote == old(fontQuote) && fontAuthor == old(fontAuthor)
    {
      this.quote := quote;
      this.author := author;
      fontSize := Some(30);
      if font.Failure? {
        return Failure(font.error);
      }
      fontQuote := Some(Font(fontPath, 30));
      fontAuthor := Some(Font(fontPath, AuthorFontSize(30)));
      return Success(());
    }

    /** `make_meme`: load and resize, prepare the fonts, draw the two captions and return
        the path of the saved file. `textWidth` and `authorWidth` are the right edges PIL
        measured for the quote and for "- author"; `rnd` is the random part of the temporary
        file name; `savedTo` is the path the image is saved to. */
    method MakeMeme(loaded: Result<Image, string>, text: string, author: string, width: int,
                    newHeight: int, font: Result<(), string>, textWidth: nat, authorWidth: nat,
                    d: Draws, rnd: string)
      returns (r: Result<string, string>, savedTo: Option<string>)
      requires '/' !in rnd
      modifies this
      ensures outputDir == old(outputDir) && fontPath == old(fontPath)
      ensures loaded.Failure? ==> r == Failure(loaded.error) && savedTo == None && unchanged(this)
      ensures loaded.Success? ==> quote == text && this.author == author && fontSize == Some(FONT_SIZE)
      ensures loaded.Success? && font.Failure? ==>
        && r == Failure(font.error) && savedTo == None
        && image == Some(Image(ClampWidth(width), newHeight, []))
        && fontQuote == old(fontQuote) && fontAuthor == old(fontAuthor)
      ensures loaded.Success? && font.Success? ==>
        && image == Some(Image(ClampWidth(width), newHeight,
             Captions(text, author, Font(fontPath, 30), Font(fontPath, 24),
                      ClampWidth(width), newHeight, textWidth, authorWidth, FONT_SIZE, d)))
        && fontQuote == Some(Font(fontPath, 30)) && fontAuthor == Some(Font(fontPath, 24))
        && savedTo == Some(PathJoin(TempDir(outputDir), MemeFileName(rnd)))
        && r == Success(PathStr(outputDir) + "/" + MEME_PREFIX + rnd + MEME_SUFFIX)
    {
      var step := LoadAndResizeImage(loaded, width, newHeight);
      if step.Failure? {
        return Failure(step.error), None;
      }
      step := PrepareFonts(text, author, font);
      if step.Failure? {
        return Failure(step.error), None;
      }
      var img := image.value;
      var imgWidth, imgHeight := img.width, img.height;
      var size := fontSize.value;
      var captions := Captions(text, author, fontQuote.value, fontAuthor.value,
                               imgWidth, imgHeight, textWidth, authorWidth, size, d);
      assert img == Image(ClampWidth(width), newHeight, []);
      assert fontQuote.value == Font(fontPath, 30) && fontAuthor.value == Font(fontPath, 24) && size == FONT_SIZE;
      assert img.captions + captions == captions;
      image := Some(img.(captions := img.captions + captions));
      var tempPath := PathJoin(TempDir(outputDir), MemeFileName(rnd));
      savedTo := Some(tempPath);
      var returned := ReturnedPath(outputDir, tempPath);
      assert returned == PathStr(outputDir) + "/" + MEME_PREFIX + rnd + MEME_SUFFIX by {
        ReturnedPathShape(outputDir, rnd);
      }
      return Success(returned), savedTo;
    }
  }
}
