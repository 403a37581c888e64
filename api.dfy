/**
 * The request handlers of the web service, without the transport: each
 * handler is a guard on its inputs followed by one call and a returned
 * record. A failed guard is a 400 response; an exception escaping the
 * generator is a 500 response; a request body the `SearchRequest` model
 * rejects is a 422 response.
 */
module Api {
  import opened Results
  import opened Hex
  import opened Prng
  import opened BabelGenerator

  /** The largest page number the service accepts, and the `le` bound of the `Page` model. */
  const MAX_PAGE_NUMBER: int := 410

  const INVALID_HASH_DETAIL: string := "Invalid hash format. Must be a 64-character hex string."
  const INVALID_PAGE_DETAIL: string := "Page number must be between 1 and 410."

  /** How a request fails, as the caller sees it. */
  datatype ApiError =
    | BadRequest(detail: string)  // an HTTPException with status 400
    | UnprocessableEntity         // the request body fails its model's field constraints (422)
    | InternalServerError         // an exception escaped the handler (500)

  datatype BookResponse = BookResponse(addressHash: string, content: seq<Page>)

  datatype SearchResponse = SearchResponse(addressHash: string, queryText: string)

  /** The field constraints of the `Page` model: `page_number` is `gt=0` and `le=410`. */
  predicate IsValidPageModel(page: Page)
    ensures IsValidPageModel(page) <==> 1 <= page.pageNumber <= PAGES_PER_BOOK
  {
    0 < page.pageNumber <= MAX_PAGE_NUMBER
  }

  /** The foreign calls of `/search`: `str.encode('utf-8')` and `hashlib.sha256`. */
  datatype Hashing = Hashing(utf8: string -> seq<byte>, sha256: seq<byte> -> seq<byte>)

  /** What SHA-256 promises: a digest of 32 bytes. */
  ghost predicate DigestSized(h: Hashing) {
    forall b :: |h.sha256(b)| == 32
  }

  /**
   * `GET /book/{hash_str}`. The length is the only check made on the
   * address; a 64-character string that `int(_, 16)` cannot read passes it
   * and makes the generator raise, which the caller sees as a 500.
   */
  function GetFullBook<S(!new)>(e: Engine<S>, hashStr: string): (r: Result<BookResponse, ApiError>)
    requires Sound(e)
    ensures r == Failure(BadRequest(INVALID_HASH_DETAIL)) <==> |hashStr| != ADDRESS_DIGITS
    ensures r == Failure(InternalServerError) <==> |hashStr| == ADDRESS_DIGITS && IntBase16(hashStr).None?
    ensures |hashStr| == ADDRESS_DIGITS && AllHex(hashStr) ==> r.Success?
    ensures r.Success? ==> r.value.addressHash == hashStr && BookContent(e, hashStr) == Success(r.value.content)
    ensures r.Success? ==> forall i :: 0 <= i < |r.value.content| ==> IsValidPageModel(r.value.content[i])
  {
    if |hashStr| != 64 then
      Failure(BadRequest(INVALID_HASH_DETAIL))
    else
      match BookContent(e, hashStr)
      case Failure(_) => Failure(InternalServerError)
      case Success(content) => Success(BookResponse(hashStr, content))
  }

  /**
   * `GET /page/{hash_str}/{page_num}`. The address length is checked first,
   * then the page range; a request that passes both gets exactly the page
   * of the full book with that number.
   */
  function GetSinglePage<S(!new)>(e: Engine<S>, hashStr: string, pageNum: int): (r: Result<Page, ApiError>)
    requires Sound(e)
    ensures r == Failure(BadRequest(INVALID_HASH_DETAIL)) <==> |hashStr| != ADDRESS_DIGITS
    ensures r == Failure(BadRequest(INVALID_PAGE_DETAIL)) <==>
      |hashStr| == ADDRESS_DIGITS && !(1 <= pageNum <= PAGES_PER_BOOK)
    ensures r == Failure(InternalServerError) <==>
      |hashStr| == ADDRESS_DIGITS && 1 <= pageNum <= PAGES_PER_BOOK && IntBase16(hashStr).None?
    ensures r.Success? <==>
      |hashStr| == ADDRESS_DIGITS && 1 <= pageNum <= PAGES_PER_BOOK && IntBase16(hashStr).Some?
    ensures |hashStr| == ADDRESS_DIGITS && AllHex(hashStr) && 1 <= pageNum <= PAGES_PER_BOOK ==> r.Success?
    ensures r.Success? ==> r.value.pageNumber == pageNum && IsValidPageModel(r.value)
    ensures r.Success? ==> PageContent(e, hashStr, pageNum) == Success(r.value.lines)
    ensures r.Success? ==> BookContent(e, hashStr).Success? && r.value == BookContent(e, hashStr).value[pageNum - 1]
  {
    if |hashStr| != 64 then
      Failure(BadRequest(INVALID_HASH_DETAIL))
    else if !(1 <= pageNum <= 410) then
      Failure(BadRequest(INVALID_PAGE_DETAIL))
    else
      SeekConsistency(e, hashStr, pageNum);
      match PageContent(e, hashStr, pageNum)
      case Failure(_) => Failure(InternalServerError)
      case Success(lines) => Success(Page(pageNum, lines))
  }

  /**
   * `POST /search`. The `SearchRequest` model refuses empty text; otherwise
   * the address is the lowercase hex SHA-256 digest of the text's UTF-8
   * bytes, and the text is echoed back.
   */
  function SearchForTextAddress(h: Hashing, text: string): (r: Result<SearchResponse, ApiError>)
    requires DigestSized(h)
    ensures r.Failure? <==> text == []
    ensures r.Failure? ==> r.error == UnprocessableEntity
    ensures r.Success? ==> r.value.queryText == text
    ensures r.Success? ==> r.value.addressHash == HexDigest(h.sha256(h.utf8(text)))
    ensures r.Success? ==> |r.value.addressHash| == ADDRESS_DIGITS
    ensures r.Success? ==> forall i :: 0 <= i < ADDRESS_DIGITS ==> IsLowerHexDigit(r.value.addressHash[i])
  {
    if |text| < 1 then
      Failure(UnprocessableEntity)
    else
      var textBytes := h.utf8(text);
      var readableHash := HexDigest(h.sha256(textBytes));
      Success(SearchResponse(readableHash, text))
  }

  /**
   * A 64-character address holding any character other than a digit,
   * whitespace, a sign, `x`, `X` or `_` passes the length check and fails
   * inside the generator: a 500, not a 400.
   */
  lemma UnreadableAddressFails<S(!new)>(e: Engine<S>, hashStr: string, i: nat, pageNum: int)
    requires Sound(e) && |hashStr| == ADDRESS_DIGITS && i < |hashStr| && !IsNumeralChar(hashStr[i])
    ensures GetFullBook(e, hashStr) == Failure(InternalServerError)
    ensures 1 <= pageNum <= PAGES_PER_BOOK ==> GetSinglePage(e, hashStr, pageNum) == Failure(InternalServerError)
  {
    if IntBase16(hashStr).Some? {
      IntBase16Facts(hashStr);
      assert false;
    }
  }

  /** Sixty-four `g`s: the length is right, the characters are not hexadecimal. */
  lemma NonHexAddressIsServerError<S(!new)>(e: Engine<S>)
    requires Sound(e)
    ensures GetFullBook(e, seq(64, _ => 'g')) == Failure(InternalServerError)
  {
    var address := seq(64, _ => 'g');
    UnreadableAddressFails(e, address, 0, 1);
  }

  /**
   * The length check lets through any numeral `int(_, 16)` reads, and
   * `random.Random` keeps only the magnitude of the seed: two addresses read
   * as seeds that start the generator alike (a signed numeral of 63 digits
   * and the same digits behind a `0`, by `SignedReadsAsPadded` and
   * `SeededNegation`) open the same book.
   */
  lemma SameSeedSameContent<S(!new)>(e: Engine<S>, a: string, b: string, x: int, y: int)
    requires Sound(e) && |a| == ADDRESS_DIGITS && |b| == ADDRESS_DIGITS
    requires IntBase16(a) == Some(x) && IntBase16(b) == Some(y) && Seeded(e, x) == Seeded(e, y)
    ensures GetFullBook(e, a).Success? && GetFullBook(e, b).Success?
    ensures GetFullBook(e, a).value.content == GetFullBook(e, b).value.content
  {
    SameStartSameBook(e, a, b);
  }

  /** The address format the error detail describes: 64 hexadecimal digits. */
  predicate IsAddress(s: string) {
    |s| == ADDRESS_DIGITS && AllHex(s)
  }

  /**
   * `GET /book/{hash_str}` with the guard its error detail describes: every
   * string that is not 64 hexadecimal digits gets the 400, and no request
   * reaches the generator with an address it cannot read.
   */
  function GetFullBookChecked<S(!new)>(e: Engine<S>, hashStr: string): (r: Result<BookResponse, ApiError>)
    requires Sound(e)
    ensures r.Failure? <==> !IsAddress(hashStr)
    ensures r.Failure? ==> r.error == BadRequest(INVALID_HASH_DETAIL)
    ensures r.Success? ==> r.value.addressHash == hashStr && HexValue(hashStr) < ADDRESS_SPACE
    ensures r.Success? ==> r.value.content == BookFrom(e, Seeded(e, HexValue(hashStr)))
  {
    if !IsAddress(hashStr) then
      Failure(BadRequest(INVALID_HASH_DETAIL))
    else
      HexAddressSeed(hashStr);
      Success(BookResponse(hashStr, BookFrom(e, e.seeded(HexValue(hashStr)))))
  }

  /** `GET /page/{hash_str}/{page_num}` with the same corrected address guard. */
  function GetSinglePageChecked<S(!new)>(e: Engine<S>, hashStr: string, pageNum: int): (r: Result<Page, ApiError>)
    requires Sound(e)
    ensures r.Failure? <==> !IsAddress(hashStr) || !(1 <= pageNum <= PAGES_PER_BOOK)
    ensures !IsAddress(hashStr) ==> r == Failure(BadRequest(INVALID_HASH_DETAIL))
    ensures IsAddress(hashStr) && !(1 <= pageNum <= PAGES_PER_BOOK) ==> r == Failure(BadRequest(INVALID_PAGE_DETAIL))
    ensures r.Success? ==> r.value == BookFrom(e, Seeded(e, HexValue(hashStr)))[pageNum - 1]
  {
    if !IsAddress(hashStr) then
      Failure(BadRequest(INVALID_HASH_DETAIL))
    else if !(1 <= pageNum <= 410) then
      Failure(BadRequest(INVALID_PAGE_DETAIL))
    else
      PageFromReadsStream(e, e.seeded(HexValue(hashStr)), pageNum, TOTAL_CHARS_PER_BOOK);
      Success(Page(pageNum, PageFrom(e, e.seeded(HexValue(hashStr)), pageNum)))
  }

  /** On every well-formed address the corrected handlers answer as the deployed ones do. */
  lemma CheckedAgreesOnAddresses<S(!new)>(e: Engine<S>, hashStr: string, pageNum: int)
    requires Sound(e) && IsAddress(hashStr)
    ensures GetFullBookChecked(e, hashStr) == GetFullBook(e, hashStr)
    ensures GetSinglePageChecked(e, hashStr, pageNum) == GetSinglePage(e, hashStr, pageNum)
  {
    HexAddressSeed(hashStr);
  }

  /**
   * An address computed by `/search` is always accepted by `/book`, under
   * either guard, and names the book seeded by the digest read as a
   * big-endian integer.
   */
  lemma SearchAddressOpensBook<S(!new)>(e: Engine<S>, h: Hashing, text: string)
    requires Sound(e) && DigestSized(h) && text != []
    ensures GetFullBook(e, SearchForTextAddress(h, text).value.addressHash).Success?
    ensures GetFullBookChecked(e, SearchForTextAddress(h, text).value.addressHash).Success?
    ensures GetFullBook(e, SearchForTextAddress(h, text).value.addressHash).value.content ==
      BookFrom(e, Seeded(e, BigEndian(h.sha256(h.utf8(text)))))
  {
    var digest := h.sha256(h.utf8(text));
    HexDigestRoundTrip(digest);
    HexDigestValue(digest);
  }
}
