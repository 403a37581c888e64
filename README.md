# Babel Hash API — a verified model of the generator and its handlers

The Babel Hash API serves a "library" of books addressed by 256-bit
identifiers. An address is a 64-character hexadecimal string. The generator
reads it with `int(hex_hash, 16)` and seeds a fresh `random.Random` with the
result. That generator then draws one alphabet index per character, and the
symbols are cut, in draw order, into 410 pages of 40 lines of 80 symbols.
Two paths produce content:

- the full-book path draws all 1,312,000 symbols;
- the single-page path discards the draws of the preceding pages, then draws
  one page.

The web layer adds guards on top of the generator:

- `GET /book/{hash}` checks the length of the address;
- `GET /page/{hash}/{n}` checks the length, then the page range;
- `POST /search` refuses empty text and answers with the lowercase SHA-256
  hex digest of the text's UTF-8 bytes.

The model is in five modules.

- `Results` (`results.dfy`): `Option` and `Result`, which stand for the
  exceptions Python raises.
- `Hex` (`hex.dfy`):
  - `IntBase16`, the accepted grammar of Python's `int(s, 16)`. That is
    whitespace at both ends (the six ASCII whitespace characters of C's
    `isspace`, and the non-ASCII characters Unicode counts as whitespace),
    then an optional sign, an optional `0x`/`0X`
    prefix with one optional underscore after it, and hexadecimal digits of
    either case with single underscores between them.
  - `HexDigest`, the lowercase `hexdigest()` rendering of a byte string.
- `Prng` (`prng.dfy`): `random.Random`, seen only through what the
  generator uses of it. It is an `Engine` (seeding, and one draw below `n`)
  passed as a parameter, and a `Random` class whose `state` field each
  `RandInt` advances. Seeding keeps only the magnitude of an integer seed,
  as CPython's `random.seed` does.
- `BabelGenerator` (`babel_generator.dfy`):
  - the constants and the shape predicates of a line, a page and a book;
  - the stream `Text` of symbols drawn from a state;
  - the two generator functions `generate_book_content` and
    `generate_page_content`. Each is a `method` with the source's loops,
    proved equal to a specification function (`BookContent`,
    `PageContent`). The loops sit in small methods: `DrawSymbols`,
    `CutIntoPages`, `DrawPage` and `Discard`.
  - the lemmas relating the two paths.
- `Api` (`api.dfy`):
  - the three handlers as functions from a request to a response or an HTTP
    error: 400 with its detail string, 422, or 500 for an exception that
    escapes the handler;
  - the field constraints of the `Page` and `SearchRequest` models;
  - a corrected address guard (see Findings).

Two places where the source's own words and its code differ; the model
follows the code in both.

- **The alphabet.** The comment at `babel_generator.py:4` speaks of 25
  symbols; the string at line 5 holds 26. Every draw is
  `randint(0, len(BABEL_ALPHABET) - 1)`, so all 26 occur.
- **Readable addresses.** The 400 detail at `main.py:71` and `main.py:83`
  describes a 64-character hex string, but `int(_, 16)` also accepts
  whitespace, a sign, a `0x` prefix and underscores. The model reads
  addresses by that grammar (see Findings).

## Model

| member | source | states |
|---|---|---|
| `Hex.DigitValue` | babel_generator.py:16 | a hexadecimal digit of either case is worth less than 16 |
| `Hex.HexValue` | babel_generator.py:16 | a run of `n` hexadecimal digits is worth less than 16^n |
| `Hex.TrimStart` | babel_generator.py:16 | `int()` drops leading whitespace only (not the separators U+001C to U+001F): the result is a suffix, every removed character is whitespace, and the result does not start with whitespace |
| `Hex.TrimEnd` | babel_generator.py:16 | likewise for trailing whitespace: a prefix is kept, only whitespace is removed, and the result does not end in whitespace |
| `Hex.IntBase16` | babel_generator.py:16 | `int(s, 16)` never accepts the empty string |
| `Hex.GroupedDigitsOfHex` | babel_generator.py:16 | digits without underscores read as their plain base-16 value |
| `Hex.GroupedDigitsFacts` | babel_generator.py:16 | an accepted digit group holds only digits and underscores, and its value is below 16 to its length |
| `Hex.StripPrefixChars` | babel_generator.py:16 | removing the `0x` prefix leaves a suffix and removes only numeral characters |
| `Hex.ReadUnsignedOfDigits` | babel_generator.py:16 | a run of plain digits is read unsigned as its value |
| `Hex.IntBase16OfTrimmed` | babel_generator.py:16 | with no whitespace at either end, `int()` reads the sign and digits as they stand |
| `Hex.ReadSignedNegative` | babel_generator.py:16 | a minus sign negates the magnitude behind it |
| `Hex.IntBase16OfDigits` | babel_generator.py:49 | every non-empty run of hexadecimal digits is accepted and read as its value |
| `Hex.IntBase16OfNegated` | babel_generator.py:16 | `-` followed by digits is accepted and read as the negated value |
| `Hex.IntBase16OfPadded` | babel_generator.py:16 | `0` followed by digits is accepted and read as the digits alone |
| `Hex.ReadUnsignedFacts` | babel_generator.py:16 | an accepted unsigned numeral holds only numeral characters, and its value is below 16 to its length |
| `Hex.ReadSignedFacts` | babel_generator.py:16 | likewise for a signed numeral, with the magnitude bound on both sides of zero |
| `Hex.IntBase16Facts` | babel_generator.py:16 | whatever `int(_, 16)` accepts holds only digits, whitespace, signs, `x`, `X` and `_`, and its magnitude is below 16 to its length: any other character raises `ValueError` |
| `Hex.TrimStartChars` | babel_generator.py:16 | leading whitespace does not bring in a non-numeral character |
| `Hex.TrimEndChars` | babel_generator.py:16 | trailing whitespace does not bring in a non-numeral character |
| `Hex.HexValueSnoc` | babel_generator.py:16 | appending a digit multiplies the value by 16 and adds the digit |
| `Hex.LeadingZero` | babel_generator.py:16 | a leading `0` does not change the value |
| `Hex.SignedReadsAsPadded` | babel_generator.py:16 | `-d` and `0d` for the same digits `d` are both accepted, read as a number and its negation |
| `Hex.SeparatorIsNotSkipped` | babel_generator.py:16 | a string starting with one of the separators U+001C to U+001F raises `ValueError`: they are not skipped as whitespace |
| `Hex.HexAddressSeed` | babel_generator.py:16 | 64 hexadecimal digits are accepted, read as themselves, and give a seed below 2^256 |
| `Hex.AddressSeedBound` | babel_generator.py:16 | any 64-character string `int(_, 16)` accepts, signed or prefixed, gives a seed of magnitude below 2^256 |
| `Hex.Pow16Of64` | babel_generator.py:16 | 16^64 is 2^256, the size of the address space |
| `Hex.ZerosParseToZero` | babel_generator.py:16 | the all-zero address (64 zeros, or any shorter run) gives seed 0 |
| `Hex.ZerosValueZero` | babel_generator.py:16 | a run of zeros is all-hex and worth 0 |
| `Hex.LowerHexDigit` | main.py:101 | each nibble is rendered as a lowercase digit whose value is the nibble |
| `Hex.HexDigest` | main.py:101 | `hexdigest()` gives two lowercase hexadecimal characters per byte |
| `Hex.HexDigestRoundTrip` | main.py:101 | reading a digest back with `int(_, 16)` gives the big-endian value of its bytes |
| `Hex.HexDigestValue` | main.py:101 | the digits of a digest are worth the big-endian value of its bytes |
| `Prng.Draws` | babel_generator.py:24-26 | `k` draws give `k` indices, each below `n` when the engine keeps `randint`'s range |
| `Prng.DrawsSplit` | babel_generator.py:53-57 | drawing `a + b` indices is drawing `a`, then `b` more from the state left behind, in state and in output |
| `Prng.DrawsPrefix` | babel_generator.py:24-26 | drawing more indices only extends the stream already drawn |
| `Prng.SeedMagnitude` | babel_generator.py:20 | a seed counts by its absolute value |
| `Prng.SeededNegation` | babel_generator.py:20 | `random.Random(-n)` starts in the same state as `random.Random(n)` |
| `Prng.Seeded` | babel_generator.py:20 | `random.Random(seed)` starts in the engine's state for the seed's absolute value: for `seed` itself when it is not negative, for `-seed` otherwise |
| `Prng.Random.constructor` | babel_generator.py:20 | a fresh generator keeps its engine and starts in the state its seed's magnitude determines |
| `Prng.Random.RandInt` | babel_generator.py:26 | `randint(lo, hi)` yields a value in `[lo, hi]`, namely the engine's draw below `hi - lo + 1` plus `lo`, and advances the state by exactly that draw |
| `BabelGenerator.BookGeometry` | babel_generator.py:5-9 | the alphabet has 26 symbols and a book has 1,312,000 characters |
| `BabelGenerator.Text` | babel_generator.py:24-28 | `k` draws give `k` symbols |
| `BabelGenerator.TextOverAlphabet` | babel_generator.py:26-28 | alphabet closure: every drawn symbol belongs to the alphabet |
| `BabelGenerator.TextSnoc` | babel_generator.py:26-28 | each draw appends the symbol at the drawn index |
| `BabelGenerator.TextSplit` | babel_generator.py:53-57 | the characters after discarding `a` draws are the stream's characters from `a` on |
| `BabelGenerator.PageLines` | babel_generator.py:35-40 | a page cut from text over the alphabet has 40 lines of 80 symbols |
| `BabelGenerator.Paginate` | babel_generator.py:30-44 | text over the alphabet is cut into 410 pages numbered 1 to 410, each well formed |
| `BabelGenerator.DrawnLinesFormPage` | babel_generator.py:59-66 | lines drawn one after another are the lines of one page cut from a single run of the stream |
| `BabelGenerator.BookFrom` | babel_generator.py:22-44 | the book written from any state is well formed |
| `BabelGenerator.BookContent` | babel_generator.py:11-44 | `generate_book_content` raises exactly when `int(_, 16)` does, succeeds on every non-empty run of hexadecimal digits, and returns a well-formed book |
| `BabelGenerator.CharsToSkip` | babel_generator.py:53-57 | for a page number of at least 1 the skip count is the offset where that page starts in the flat stream; below 1 `range` of the negative count draws nothing |
| `BabelGenerator.PageFrom` | babel_generator.py:53-66 | the page written from any state has 40 lines of 80 symbols over the alphabet |
| `BabelGenerator.PageContent` | babel_generator.py:46-68 | `generate_page_content` raises exactly when `int(_, 16)` does, succeeds on every non-empty run of hexadecimal digits, and returns 40 well-formed lines |
| `BabelGenerator.GenerateBookContent` | babel_generator.py:11-44 | the loops compute `BookContent` |
| `BabelGenerator.CutIntoPages` | babel_generator.py:30-44 | the structuring loops cut the flat list into exactly the pages of `Paginate` |
| `BabelGenerator.DrawSymbols` | babel_generator.py:23-28 | `count` draws yield the stream's first `count` symbols and advance the state by `count` draws |
| `BabelGenerator.DrawPage` | babel_generator.py:60-66 | the page loops yield page 1 of the next 3,200 symbols and advance the state by 3,200 draws |
| `BabelGenerator.GeneratePageContent` | babel_generator.py:46-68 | the skip and page loops compute `PageContent` |
| `BabelGenerator.Discard` | babel_generator.py:53-57 | the skip loop advances the state by `count` draws, and by none when `count` is negative |
| `BabelGenerator.PageLinesShift` | babel_generator.py:53-57 | page `p` of a text is page 1 of the piece that starts where page `p` starts |
| `BabelGenerator.PageFromReadsStream` | babel_generator.py:53-66 | the page path reads page `p` off the same stream the book path cuts up, for every `p >= 1` |
| `BabelGenerator.SeekConsistency` | babel_generator.py:46-68 | for pages 1 to 410 the page path returns exactly that page of the full book, and fails exactly when the book path fails, with the same error |
| `BabelGenerator.SameStartSameBook` | babel_generator.py:16-20 | two addresses whose seeds start the generator alike name the same book |
| `BabelGenerator.PageBeforeFirst` | babel_generator.py:53-57 | a page number below 1 discards nothing and yields page 1 |
| `BabelGenerator.ConcatPageLines` | babel_generator.py:35-40 | the first `j` lines of a page, joined, are the text from the page's start to line `j` |
| `BabelGenerator.BookTextPrefix` | babel_generator.py:31-44 | the first `i` pages, joined, are the text up to page `i + 1` |
| `BabelGenerator.PaginateCovers` | babel_generator.py:30-44 | the partition has no gaps or overlaps: joining every line of every page gives back the flat text |
| `BabelGenerator.BookIsStream` | babel_generator.py:22-44 | a generated book is the first 1,312,000 drawn symbols, each used once, in draw order |
| `BabelGenerator.GenerateBookTwice` | babel_generator.py:18-20 | determinism: two calls on the same address return the same result |
| `BabelGenerator.GeneratePageAndBook` | babel_generator.py:46-68 | the two methods succeed together, and the page method returns page `p` of the book method's result |
| `Api.IsValidPageModel` | main.py:14-16 | the `Page` model's `gt=0, le=410` admits exactly the page numbers 1 to 410 of a book |
| `Api.GetFullBook` | main.py:65-74 | a 400 with the hash detail exactly when the length is not 64; a 500 exactly when a 64-character string fails `int(_, 16)`; success on 64 hexadecimal digits; the address is echoed back with the book; every page satisfies the `Page` model |
| `Api.GetSinglePage` | main.py:77-88 | a 400 with the hash detail exactly when the length is not 64; a 400 with the page detail exactly when the length is right and the page is outside 1 to 410; a 500 exactly when both guards pass and `int(_, 16)` fails; success exactly when both pass and `int(_, 16)` reads the address; on success, the requested page number and exactly that page of the full book |
| `Api.SearchForTextAddress` | main.py:91-103 | a 422 exactly for empty text; otherwise the text is echoed back with the SHA-256 hex of its UTF-8 bytes, 64 lowercase hexadecimal characters |
| `Api.UnreadableAddressFails` | main.py:70-73 | a 64-character address holding a non-numeral character passes the length guard and ends in a 500 on both GET endpoints |
| `Api.NonHexAddressIsServerError` | main.py:70-73 | sixty-four `g`s get a 500, not the 400 |
| `Api.SameSeedSameContent` | main.py:70-74 | two 64-character addresses read as seeds that start the generator alike are both served, with the same book |
| `Api.GetFullBookChecked` | main.py:70-74 | corrected guard: a 400 exactly when the address is not 64 hexadecimal digits; otherwise the book seeded by the address's value, which is below 2^256 |
| `Api.GetSinglePageChecked` | main.py:82-88 | corrected guard, then the page range: on success, exactly that page of the book seeded by the address's value |
| `Api.CheckedAgreesOnAddresses` | main.py:65-88 | on well-formed addresses the corrected handlers answer exactly as the deployed ones |
| `Api.SearchAddressOpensBook` | main.py:91-103 | every address returned by `/search` is served by `/book` under either guard, and names the book seeded by the digest's big-endian value |

## Left out

- The Mersenne Twister and the rejection sampling inside `randint` are
  foreign code. They are the two functions of a `Prng.Engine` parameter. Of
  their behaviour only the range guarantee of `randint(0, n - 1)` is assumed
  (`Prng.Sound`). The model states no uniformity and no period.
- SHA-256 and UTF-8 encoding are foreign code too. They are the two
  functions of an `Api.Hashing` parameter. The only assumption is that
  every SHA-256 digest has 32 bytes (`Api.DigestSized`). `hexdigest()` is
  modelled.
- `Hex.IntBase16`: Python's `int()` also accepts non-ASCII Unicode decimal
  digits; the model treats them as unreadable.
- `Api.UnreadableAddressFails`: for a Unicode decimal digit it states a 500
  where Python would serve a book (see the previous line).
- Routing, the `FastAPI` application object (main.py:35-38), the CORS
  middleware (main.py:44-54) and `read_root` (main.py:59-62) are transport
  concerns.
- JSON serialisation and pydantic's machinery are left out as well. The
  `Page` and `SearchRequest` field constraints are modelled. The
  response-model check on `Page` is stated as a proved property of every
  response, not as a validation step.
- A `page_num` path segment that is not an integer makes FastAPI answer 422
  before the handler runs. The model takes the page number as an `int`.
- The bodies of the 422 and 500 responses are left out. The model keeps
  only the status and, for 400, the detail string.
- Run time, memory, and the linear cost of the page path's skip are not
  modelled.

## Findings

| source | as written | input that shows it | evidently intended | confidence | as-written member | corrected member |
|---|---|---|---|---|---|---|
| main.py:70-73 | `/book` checks only the length of the address, then hands it to `int(_, 16)` | sixty-four `g`s: 500 instead of 400; a `-` followed by 63 digits is also served, as the same book as the address with `0` in place of the sign | a 400 with the hash detail for every string that is not 64 hexadecimal digits, as the detail string says | medium; not executed | `Api.NonHexAddressIsServerError` | `Api.GetFullBookChecked` |
| main.py:82-87 | `/page` checks only the length of the address, then the page range, then hands the address to `int(_, 16)` | any 64-character address holding a character such as `g`, with a page number from 1 to 410: 500 instead of 400 | a 400 with the hash detail for every string that is not 64 hexadecimal digits | medium; not executed | `Api.UnreadableAddressFails` | `Api.GetSinglePageChecked` |
