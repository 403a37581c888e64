/**
 * The deterministic book generator. A hex address is read as an integer
 * seed; a freshly seeded `random.Random` draws one alphabet index per
 * character; the flat character stream is cut, in draw order, into pages of
 * lines. The full-book path draws the whole stream; the single-page path
 * draws and discards the characters of the preceding pages first.
 */
module BabelGenerator {
  import opened Results
  import opened Hex
  import opened Prng

  /** The symbols a book is written in, in index order (26 of them). */
  const BABEL_ALPHABET: string := "abcdefghilmnoprstuwxyz,.' "
  const CHARS_PER_LINE: nat := 80
  const LINES_PER_PAGE: nat := 40
  const PAGES_PER_BOOK: nat := 410
  const TOTAL_CHARS_PER_BOOK: nat := CHARS_PER_LINE * LINES_PER_PAGE * PAGES_PER_BOOK

  /** One entry of a generated book: `{"page_number": …, "lines": …}`. */
  datatype Page = Page(pageNumber: int, lines: seq<string>)

  /** The `ValueError` that `int(hex_hash, 16)` raises on a string that is not a numeral. */
  datatype ValueError = InvalidLiteral(literal: string)

  lemma BookGeometry()
    ensures |BABEL_ALPHABET| == 26
    ensures TOTAL_CHARS_PER_BOOK == 1312000
  {
  }

  predicate OverAlphabet(t: string) {
    forall i :: 0 <= i < |t| ==> t[i] in BABEL_ALPHABET
  }

  predicate IsLine(line: string) {
    |line| == CHARS_PER_LINE && OverAlphabet(line)
  }

  /** The lines of one page: LINES_PER_PAGE lines of CHARS_PER_LINE symbols. */
  predicate IsPageText(lines: seq<string>) {
    |lines| == LINES_PER_PAGE && forall j :: 0 <= j < |lines| ==> IsLine(lines[j])
  }

  /** A whole book: PAGES_PER_BOOK well-formed pages numbered 1, 2, … in order. */
  predicate IsBook(book: seq<Page>) {
    |book| == PAGES_PER_BOOK &&
    forall i :: 0 <= i < |book| ==> book[i].pageNumber == i + 1 && IsPageText(book[i].lines)
  }

  function Symbols(indices: seq<nat>): string
    requires forall i :: 0 <= i < |indices| ==> indices[i] < |BABEL_ALPHABET|
  {
    seq(|indices|, i requires 0 <= i < |indices| => BABEL_ALPHABET[indices[i]])
  }

  /** The first `k` characters of the stream drawn from state `s`, one index per character. */
  function Text<S(!new)>(e: Engine<S>, s: S, k: nat): (t: string)
    requires Sound(e)
    ensures |t| == k
  {
    Symbols(Draws(e, s, |BABEL_ALPHABET|, k))
  }

  /** Alphabet closure: every index `randint` draws names a symbol of the alphabet. */
  lemma TextOverAlphabet<S(!new)>(e: Engine<S>, s: S, k: nat)
    requires Sound(e)
    ensures OverAlphabet(Text(e, s, k))
  {
    var d := Draws(e, s, |BABEL_ALPHABET|, k);
    forall i | 0 <= i < k
      ensures Text(e, s, k)[i] in BABEL_ALPHABET
    {
      assert d[i] < |BABEL_ALPHABET|;
    }
  }

  /** Each draw appends the symbol at the drawn index. */
  lemma TextSnoc<S(!new)>(e: Engine<S>, s: S, k: nat)
    requires Sound(e)
    ensures Text(e, s, k + 1) ==
      Text(e, s, k) + [BABEL_ALPHABET[e.randBelow(After(e, s, |BABEL_ALPHABET|, k), |BABEL_ALPHABET|).0]]
  {
    var d := Draws(e, s, |BABEL_ALPHABET|, k + 1);
    assert d[..k] == Draws(e, s, |BABEL_ALPHABET|, k);
  }

  lemma SymbolsSlice(d: seq<nat>, a: nat, b: nat)
    requires a <= b <= |d| && forall i :: 0 <= i < |d| ==> d[i] < |BABEL_ALPHABET|
    ensures Symbols(d[a..b]) == Symbols(d)[a..b]
  {
  }

  /** Characters `a` .. `a + b` of the stream are the `b` characters drawn after discarding `a`. */
  lemma TextSplit<S(!new)>(e: Engine<S>, s: S, a: nat, b: nat, m: nat)
    requires Sound(e) && a + b <= m
    ensures Text(e, After(e, s, |BABEL_ALPHABET|, a), b) == Text(e, s, m)[a..a + b]
  {
    var n := |BABEL_ALPHABET|;
    DrawsSplit(e, s, n, a, b);
    DrawsPrefix(e, s, n, a + b, m);
    var whole := Draws(e, s, n, m);
    var tail := Draws(e, After(e, s, n, a), n, b);
    assert whole[..a + b] == Draws(e, s, n, a) + tail;
    assert tail == whole[a..a + b];
    SymbolsSlice(whole, a, a + b);
  }

  /** Offset of line `j` (0-based) of page `p` (1-based) in the flat stream. */
  function LineStart(p: int, j: int): int {
    ((p - 1) * LINES_PER_PAGE + j) * CHARS_PER_LINE
  }

  /** Page `p` (1-based) cut out of the flat text `text`. */
  function PageLines(text: string, p: nat): (lines: seq<string>)
    requires 1 <= p && LineStart(p + 1, 0) <= |text|
    ensures OverAlphabet(text) ==> IsPageText(lines)
  {
    seq(LINES_PER_PAGE, j requires 0 <= j < LINES_PER_PAGE =>
      text[LineStart(p, j)..LineStart(p, j) + CHARS_PER_LINE])
  }

  /** The flat text of the first TOTAL_CHARS_PER_BOOK characters, cut into pages. */
  function Paginate(text: string): (book: seq<Page>)
    requires |text| == TOTAL_CHARS_PER_BOOK
    ensures OverAlphabet(text) ==> IsBook(book)
  {
    seq(PAGES_PER_BOOK, i requires 0 <= i < PAGES_PER_BOOK => Page(i + 1, PageLines(text, i + 1)))
  }

  /**
   * Lines drawn one after another, each from the state the previous one left
   * behind, are the lines of the page cut from one run of the stream.
   */
  lemma DrawnLinesFormPage<S(!new)>(e: Engine<S>, start: S, lines: seq<string>)
    requires Sound(e) && |lines| == LINES_PER_PAGE
    requires forall k :: 0 <= k < LINES_PER_PAGE ==>
      lines[k] == Text(e, After(e, start, |BABEL_ALPHABET|, LineStart(1, k)), CHARS_PER_LINE)
    ensures lines == PageLines(Text(e, start, LINES_PER_PAGE * CHARS_PER_LINE), 1)
  {
    forall k | 0 <= k < LINES_PER_PAGE
      ensures lines[k] == PageLines(Text(e, start, LINES_PER_PAGE * CHARS_PER_LINE), 1)[k]
    {
      TextSplit(e, start, LineStart(1, k), CHARS_PER_LINE, LINES_PER_PAGE * CHARS_PER_LINE);
    }
  }

  /**
   * The book a generator started in state `s0` writes: its first
   * TOTAL_CHARS_PER_BOOK symbols, cut into pages in draw order.
   */
  function BookFrom<S(!new)>(e: Engine<S>, s0: S): (book: seq<Page>)
    requires Sound(e)
    ensures IsBook(book)
  {
    TextOverAlphabet(e, s0, TOTAL_CHARS_PER_BOOK);
    Paginate(Text(e, s0, TOTAL_CHARS_PER_BOOK))
  }

  /** What `generate_book_content(hex_hash)` returns, or the error it raises. */
  function BookContent<S(!new)>(e: Engine<S>, hexHash: string): (r: Result<seq<Page>, ValueError>)
    requires Sound(e)
    ensures r.Failure? <==> IntBase16(hexHash).None?
    ensures |hexHash| > 0 && AllHex(hexHash) ==> r.Success?
    ensures r.Success? ==> IsBook(r.value)
  {
    IntBase16OfDigits(hexHash);
    match IntBase16(hexHash)
    case None => Failure(InvalidLiteral(hexHash))
    case Some(seed) => Success(BookFrom(e, Seeded(e, seed)))
  }

  /**
   * Draws the page path discards before page `pageNum`. For `pageNum <= 0`
   * the count `(pageNum - 1) * 40 * 80` is negative and `range` of it is
   * empty: nothing is discarded.
   */
  function CharsToSkip(pageNum: int): (n: nat)
    ensures 1 <= pageNum ==> n == LineStart(pageNum, 0)
    ensures pageNum < 1 ==> n == 0
  {
    if pageNum <= 1 then 0 else (pageNum - 1) * LINES_PER_PAGE * CHARS_PER_LINE
  }

  /**
   * The lines a generator started in state `s0` yields for `pageNum`: the
   * draws of the preceding pages are discarded, the next page's worth is
   * cut into lines.
   */
  function PageFrom<S(!new)>(e: Engine<S>, s0: S, pageNum: int): (lines: seq<string>)
    requires Sound(e)
    ensures IsPageText(lines)
  {
    var start := After(e, s0, |BABEL_ALPHABET|, CharsToSkip(pageNum));
    TextOverAlphabet(e, start, LINES_PER_PAGE * CHARS_PER_LINE);
    PageLines(Text(e, start, LINES_PER_PAGE * CHARS_PER_LINE), 1)
  }

  /** What `generate_page_content(hex_hash, page_num)` returns, or the error it raises. */
  function PageContent<S(!new)>(e: Engine<S>, hexHash: string, pageNum: int): (r: Result<seq<string>, ValueError>)
    requires Sound(e)
    ensures r.Failure? <==> IntBase16(hexHash).None?
    ensures |hexHash| > 0 && AllHex(hexHash) ==> r.Success?
    ensures r.Success? ==> IsPageText(r.value)
  {
    IntBase16OfDigits(hexHash);
    match IntBase16(hexHash)
    case None => Failure(InvalidLiteral(hexHash))
    case Some(seed) => Success(PageFrom(e, Seeded(e, seed), pageNum))
  }

  /** `generate_book_content`: draw the whole stream, then cut it into pages. */
  method GenerateBookContent<S(!new)>(e: Engine<S>, hexHash: string) returns (r: Result<seq<Page>, ValueError>)
    requires Sound(e)
    ensures r == BookContent(e, hexHash)
  {
    var parsed := IntBase16(hexHash);
    if parsed.None? {
      return Failure(InvalidLiteral(hexHash));
    }
    var prng := new Random(e, parsed.value);
    ghost var s0 := prng.state;
    var bookChars := DrawSymbols(prng, TOTAL_CHARS_PER_BOOK);
    var fullContent := CutIntoPages(bookChars);
    assert fullContent == BookFrom(e, s0);
    return Success(fullContent);
  }

  /**
   * The structuring loops of `generate_book_content`: `char_index` walks the
   * flat text, each line takes the next CHARS_PER_LINE characters, each page
   * the next LINES_PER_PAGE lines.
   */
  method CutIntoPages(bookChars: string) returns (fullContent: seq<Page>)
    requires |bookChars| == TOTAL_CHARS_PER_BOOK
    ensures fullContent == Paginate(bookChars)
  {
    fullContent := [];
    var charIndex := 0;
    for pageNum := 1 to PAGES_PER_BOOK + 1
      invariant |fullContent| == pageNum - 1
      invariant charIndex == LineStart(pageNum, 0)
      invariant forall i :: 0 <= i < pageNum - 1 ==> fullContent[i] == Page(i + 1, PageLines(bookChars, i + 1))
    {
      var pageLines: seq<string> := [];
      for j := 0 to LINES_PER_PAGE
        invariant |pageLines| == j
        invariant charIndex == LineStart(pageNum, j)
        invariant forall k :: 0 <= k < j ==>
          pageLines[k] == bookChars[LineStart(pageNum, k)..LineStart(pageNum, k) + CHARS_PER_LINE]
      {
        var lineStart := charIndex;
        var lineEnd := lineStart + CHARS_PER_LINE;
        var line := bookChars[lineStart..lineEnd];
        pageLines := pageLines + [line];
        charIndex := lineEnd;
      }
      assert pageLines == PageLines(bookChars, pageNum);
      fullContent := fullContent + [Page(pageNum, pageLines)];
    }
    assert charIndex == TOTAL_CHARS_PER_BOOK;
  }

  /**
   * The drawing loops of both generators: `count` draws from `prng`, each
   * turned into its symbol and appended to the text. `generate_book_content`
   * draws the whole book this way; `generate_page_content` draws each line.
   */
  method DrawSymbols<S(!new)>(prng: Random<S>, count: nat) returns (chars: string)
    requires Sound(prng.engine)
    modifies prng
    ensures chars == Text(prng.engine, old(prng.state), count)
    ensures prng.state == After(prng.engine, old(prng.state), |BABEL_ALPHABET|, count)
  {
    ghost var e, start := prng.engine, prng.state;
    chars := [];
    for i := 0 to count
      invariant prng.state == After(e, start, |BABEL_ALPHABET|, i)
      invariant chars == Text(e, start, i)
    {
      TextSnoc(e, start, i);
      var randomIndex := prng.RandInt(0, |BABEL_ALPHABET| - 1);
      chars := chars + [BABEL_ALPHABET[randomIndex]];
    }
  }

  /**
   * The page-drawing loop of `generate_page_content`: LINES_PER_PAGE lines,
   * each drawn from the state the previous one left behind.
   */
  method DrawPage<S(!new)>(prng: Random<S>) returns (pageLines: seq<string>)
    requires Sound(prng.engine)
    modifies prng
    ensures pageLines == PageLines(Text(prng.engine, old(prng.state), LINES_PER_PAGE * CHARS_PER_LINE), 1)
    ensures prng.state == After(prng.engine, old(prng.state), |BABEL_ALPHABET|, LINES_PER_PAGE * CHARS_PER_LINE)
  {
    ghost var e, start := prng.engine, prng.state;
    pageLines := [];
    for j := 0 to LINES_PER_PAGE
      invariant |pageLines| == j
      invariant prng.state == After(e, start, |BABEL_ALPHABET|, LineStart(1, j))
      invariant forall k :: 0 <= k < j ==>
        pageLines[k] == Text(e, After(e, start, |BABEL_ALPHABET|, LineStart(1, k)), CHARS_PER_LINE)
    {
      var lineChars := DrawSymbols(prng, CHARS_PER_LINE);
      DrawsSplit(e, start, |BABEL_ALPHABET|, LineStart(1, j), CHARS_PER_LINE);
      pageLines := pageLines + [lineChars];
    }
    DrawnLinesFormPage(e, start, pageLines);
  }

  /** `generate_page_content`: discard the preceding pages' draws, then draw one page. */
  method GeneratePageContent<S(!new)>(e: Engine<S>, hexHash: string, pageNum: int)
    returns (r: Result<seq<string>, ValueError>)
    requires Sound(e)
    ensures r == PageContent(e, hexHash, pageNum)
  {
    var parsed := IntBase16(hexHash);
    if parsed.None? {
      return Failure(InvalidLiteral(hexHash));
    }
    var prng := new Random(e, parsed.value);
    ghost var s0 := prng.state;

    var charsToSkip := (pageNum - 1) * LINES_PER_PAGE * CHARS_PER_LINE;
    Discard(prng, charsToSkip);
    assert prng.state == After(e, s0, |BABEL_ALPHABET|, CharsToSkip(pageNum));

    var pageLines := DrawPage(prng);
    return Success(pageLines);
  }

  /**
   * The fast-forward loop of `generate_page_content`: `count` draws, each
   * thrown away; none at all when `count` is negative.
   */
  method Discard<S(!new)>(prng: Random<S>, count: int)
    requires Sound(prng.engine)
    modifies prng
    ensures prng.state == After(prng.engine, old(prng.state), |BABEL_ALPHABET|, if count < 0 then 0 else count)
  {
    ghost var e, s0 := prng.engine, prng.state;
    var skipped := 0;
    while skipped < count
      invariant 0 <= skipped <= (if count < 0 then 0 else count)
      invariant prng.state == After(e, s0, |BABEL_ALPHABET|, skipped)
    {
      var discarded := prng.RandInt(0, |BABEL_ALPHABET| - 1);
      skipped := skipped + 1;
    }
  }

  // ---------------------------------------------------------------------
  // Properties of the two generation paths
  // ---------------------------------------------------------------------

  /** Page `p` of a text is page 1 of the page-sized piece that starts where page `p` starts. */
  lemma PageLinesShift(text: string, p: nat)
    requires 1 <= p && LineStart(p + 1, 0) <= |text|
    ensures PageLines(text, p) == PageLines(text[LineStart(p, 0)..LineStart(p + 1, 0)], 1)
  {
    var piece := text[LineStart(p, 0)..LineStart(p + 1, 0)];
    forall j | 0 <= j < LINES_PER_PAGE
      ensures PageLines(text, p)[j] == PageLines(piece, 1)[j]
    {
      assert piece[LineStart(1, j)..LineStart(1, j) + CHARS_PER_LINE]
          == text[LineStart(p, j)..LineStart(p, j) + CHARS_PER_LINE];
    }
  }

  /**
   * The page path reads page `p` off the very stream the book path cuts up,
   * for every `p >= 1` (also past the last page of the book), out of any
   * prefix of the stream long enough to hold it.
   */
  lemma PageFromReadsStream<S(!new)>(e: Engine<S>, s0: S, p: int, m: nat)
    requires Sound(e) && 1 <= p && LineStart(p + 1, 0) <= m
    ensures PageFrom(e, s0, p) == PageLines(Text(e, s0, m), p)
  {
    var skip := CharsToSkip(p);
    assert skip == LineStart(p, 0);
    TextSplit(e, s0, skip, LINES_PER_PAGE * CHARS_PER_LINE, m);
    PageLinesShift(Text(e, s0, m), p);
  }

  /**
   * Seek consistency: for every page number of the book, the single-page
   * path yields exactly the lines of that page of the full book, and fails
   * exactly when the full book fails, with the same error.
   */
  lemma SeekConsistency<S(!new)>(e: Engine<S>, hexHash: string, p: int)
    requires Sound(e) && 1 <= p <= PAGES_PER_BOOK
    ensures BookContent(e, hexHash).Failure? ==>
      PageContent(e, hexHash, p) == Failure(BookContent(e, hexHash).error)
    ensures BookContent(e, hexHash).Success? ==>
      PageContent(e, hexHash, p) == Success(BookContent(e, hexHash).value[p - 1].lines)
  {
    if IntBase16(hexHash).Some? {
      PageFromReadsStream(e, Seeded(e, IntBase16(hexHash).value), p, TOTAL_CHARS_PER_BOOK);
    }
  }

  /** Two addresses whose seeds start the generator in the same state name the same book. */
  lemma SameStartSameBook<S(!new)>(e: Engine<S>, a: string, b: string)
    requires Sound(e) && IntBase16(a).Some? && IntBase16(b).Some?
    requires Seeded(e, IntBase16(a).value) == Seeded(e, IntBase16(b).value)
    ensures BookContent(e, a) == BookContent(e, b)
  {
  }

  /**
   * A page number below 1 discards nothing (`range` of a negative count is
   * empty), so the page path then returns the first page.
   */
  lemma PageBeforeFirst<S(!new)>(e: Engine<S>, hexHash: string, p: int)
    requires Sound(e) && p < 1
    ensures PageContent(e, hexHash, p) == PageContent(e, hexHash, 1)
  {
  }

  /** The lines of a page joined end to end. */
  function Concat(lines: seq<string>): string
  {
    if lines == [] then [] else Concat(lines[..|lines| - 1]) + lines[|lines| - 1]
  }

  /** Every line of every page of a book, joined end to end in order. */
  function BookText(book: seq<Page>): string
  {
    if book == [] then [] else BookText(book[..|book| - 1]) + Concat(book[|book| - 1].lines)
  }

  lemma {:induction false} ConcatPageLines(text: string, p: nat, j: nat)
    requires 1 <= p && LineStart(p + 1, 0) <= |text| && j <= LINES_PER_PAGE
    ensures Concat(PageLines(text, p)[..j]) == text[LineStart(p, 0)..LineStart(p, j)]
  {
    if j > 0 {
      var lines := PageLines(text, p);
      ConcatPageLines(text, p, j - 1);
      assert lines[..j][..j - 1] == lines[..j - 1];
      assert text[LineStart(p, 0)..LineStart(p, j)]
          == text[LineStart(p, 0)..LineStart(p, j - 1)] + text[LineStart(p, j - 1)..LineStart(p, j)];
    }
  }

  lemma {:induction false} BookTextPrefix(text: string, i: nat)
    requires |text| == TOTAL_CHARS_PER_BOOK && i <= PAGES_PER_BOOK
    ensures BookText(Paginate(text)[..i]) == text[..LineStart(i + 1, 0)]
  {
    if i > 0 {
      var book := Paginate(text);
      BookTextPrefix(text, i - 1);
      assert book[..i][..i - 1] == book[..i - 1];
      ConcatPageLines(text, i, LINES_PER_PAGE);
      assert PageLines(text, i)[..LINES_PER_PAGE] == PageLines(text, i);
      assert text[..LineStart(i + 1, 0)] == text[..LineStart(i, 0)] + text[LineStart(i, 0)..LineStart(i + 1, 0)];
    }
  }

  /**
   * The partition has no gaps and no overlaps: reading every line of every
   * page in order gives back the flat text, character for character.
   */
  lemma PaginateCovers(text: string)
    requires |text| == TOTAL_CHARS_PER_BOOK
    ensures BookText(Paginate(text)) == text
  {
    BookTextPrefix(text, PAGES_PER_BOOK);
    assert Paginate(text)[..PAGES_PER_BOOK] == Paginate(text);
  }

  /**
   * A generated book is the first TOTAL_CHARS_PER_BOOK symbols drawn from
   * the seeded generator, every one of them used once, in draw order.
   */
  lemma BookIsStream<S(!new)>(e: Engine<S>, s0: S)
    requires Sound(e)
    ensures BookText(BookFrom(e, s0)) == Text(e, s0, TOTAL_CHARS_PER_BOOK)
  {
    PaginateCovers(Text(e, s0, TOTAL_CHARS_PER_BOOK));
  }

  /**
   * Determinism: each call seeds a generator of its own, so two calls on the
   * same address yield the same book.
   */
  method GenerateBookTwice<S(!new)>(e: Engine<S>, hexHash: string)
    returns (first: Result<seq<Page>, ValueError>, second: Result<seq<Page>, ValueError>)
    requires Sound(e)
    ensures first == second
  {
    first := GenerateBookContent(e, hexHash);
    second := GenerateBookContent(e, hexHash);
  }

  /** Seek consistency of the two methods themselves. */
  method GeneratePageAndBook<S(!new)>(e: Engine<S>, hexHash: string, p: int)
    returns (page: Result<seq<string>, ValueError>, book: Result<seq<Page>, ValueError>)
    requires Sound(e) && 1 <= p <= PAGES_PER_BOOK
    ensures page.Success? <==> book.Success?
    ensures book.Success? ==> IsBook(book.value)
    ensures book.Success? ==> page.value == book.value[p - 1].lines
  {
    page := GeneratePageContent(e, hexHash, p);
    book := GenerateBookContent(e, hexHash);
    SeekConsistency(e, hexHash, p);
  }
}
