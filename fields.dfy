/** The per-card field extractors. A product card is the outcome of the DOM lookups the
    extractors make on it; each extractor turns its lookup into a string, falling back to
    a fixed sentinel when the lookup fails. */
module Fields {
  import opened Wrappers
  import opened Text

  const NoImage := "No Image"
  const NoTitle := "No Title"
  const NoRating := "No Rating"
  const NoPrice := "No Price"
  const Ad := "Ad"
  const Organic := "Organic"
  const SponsoredMarker := "Sponsored"

  /** The prefix put in front of the primary price, character for character as the source
      spells it: the three characters U+00E2 U+201A U+00B9, which is the UTF-8 encoding of
      the rupee sign read back as Windows-1252 text. */
  const PricePrefix := "\U{E2}\U{201A}\U{B9}"

  /** What a product card offers to the extractors. Each Option is one `find_element`
      lookup: None when the element is not there, otherwise the text or attribute read.
        image          the `src` of `img.s-image`
        title          the visible text of `h2 span`
        ratingText     the `textContent` of `span.a-icon-alt`
        priceWhole     the visible text of `span.a-price-whole`
        priceOffscreen the `textContent` of `span.a-offscreen`
        texts          for each descendant element, the string that XPath 1.0's
                       `contains(text(), ...)` tests: the element's first text-node child
                       only, so a marker in a later text node of that element is not seen */
  datatype Card = Card(
    image: Option<string>,
    title: Option<string>,
    ratingText: Option<string>,
    priceWhole: Option<string>,
    priceOffscreen: Option<string>,
    texts: seq<string>)

  /** One product row, in the column order Image, Title, Rating, Price, Result_Type. */
  datatype Record = Record(image: string, title: string, rating: string, price: string, resultType: string)

  /** `extract_image`. */
  function ExtractImage(c: Card): string {
    match c.image
    case Some(src) => src
    case None => NoImage
  }

  /** `extract_title`. */
  function ExtractTitle(c: Card): string {
    match c.title
    case Some(t) => Strip(t)
    case None => NoTitle
  }

  /** `extract_rating`: the conditional answers the sentinel for empty text, and the
      handler answers it when `split()[0]` raises on whitespace-only text. */
  function ExtractRating(c: Card): string {
    match c.ratingText
    case None => NoRating
    case Some(text) =>
      if text == [] then NoRating
      else
        match FirstToken(text)
        case None => NoRating
        case Some(w) => w
  }

  /** `extract_price`. */
  function ExtractPrice(c: Card): string {
    match c.priceWhole
    case Some(whole) => PricePrefix + Strip(whole)
    case None =>
      match c.priceOffscreen
      case Some(text) => text
      case None => NoPrice
  }

  /** Some descendant element's text contains the sponsorship marker. */
  predicate HasSponsoredText(c: Card) {
    exists i :: 0 <= i < |c.texts| && Contains(c.texts[i], SponsoredMarker)
  }

  /** `check_sponsored`. */
  function CheckSponsored(c: Card): string {
    if HasSponsoredText(c) then Ad else Organic
  }

  /** The image is the `src` read, and the sentinel only when there is no image (or its
      source is literally the sentinel). */
  lemma ImageSpec(c: Card)
    ensures c.image.Some? ==> ExtractImage(c) == c.image.value
    ensures ExtractImage(c) == NoImage <==> c.image.None? || c.image.value == NoImage
  {
  }

  /** The title is the stripped heading text, hence trimmed; it is the sentinel exactly when
      there is no heading or the heading strips to the literal sentinel. */
  lemma TitleSpec(c: Card)
    ensures c.title.Some? ==> exists i: nat :: StripsTo(c.title.value, i, ExtractTitle(c))
    ensures ExtractTitle(c) == NoTitle <==> c.title.None? || Strip(c.title.value) == NoTitle
  {
    if c.title.Some? {
      StripSpec(c.title.value);
      assert ExtractTitle(c) == Strip(c.title.value);
    }
  }

  /** The rating is the first word of the rating text. The sentinel comes back exactly when
      the element is missing or its text is empty or whitespace only: a word holds no space,
      so it never equals the sentinel. */
  lemma RatingSpec(c: Card)
    ensures ExtractRating(c) == NoRating <==> c.ratingText.None? || AllSpace(c.ratingText.value)
    ensures ExtractRating(c) != NoRating ==> exists i: nat :: TokenAt(c.ratingText.value, i, ExtractRating(c))
  {
    if c.ratingText.Some? {
      var text := c.ratingText.value;
      FirstTokenSpec(text);
      if text != [] && FirstToken(text).Some? {
        var w := FirstToken(text).value;
        var i: nat :| TokenAt(text, i, w);
        assert NoRating[2] == ' ' && (|w| > 2 ==> !IsSpace(w[2]));
      }
    }
  }

  /** The primary price wins, prefixed and stripped; without it the off-screen text is taken
      as it is, with no prefix; the sentinel comes back exactly when both are missing (or the
      off-screen text is literally the sentinel), never from the primary path. */
  lemma PriceSpec(c: Card)
    ensures c.priceWhole.Some? ==> ExtractPrice(c) == PricePrefix + Strip(c.priceWhole.value)
    ensures c.priceWhole.None? && c.priceOffscreen.Some? ==> ExtractPrice(c) == c.priceOffscreen.value
    ensures ExtractPrice(c) == NoPrice <==> c.priceWhole.None? && (c.priceOffscreen.None? || c.priceOffscreen.value == NoPrice)
  {
    if c.priceWhole.Some? {
      assert ExtractPrice(c)[0] == PricePrefix[0] != NoPrice[0];
    }
  }

  /** The result type is "Ad" or "Organic" and nothing else, and it is "Ad" exactly when
      the marker occurs at some offset of some descendant text. */
  lemma SponsoredSpec(c: Card)
    ensures CheckSponsored(c) == Ad || CheckSponsored(c) == Organic
    ensures CheckSponsored(c) == Ad <==> exists i: nat, k: nat :: i < |c.texts| && OccursAt(c.texts[i], SponsoredMarker, k)
  {
    if HasSponsoredText(c) {
      var i :| 0 <= i < |c.texts| && Contains(c.texts[i], SponsoredMarker);
      ContainsAt(c.texts[i], SponsoredMarker);
    } else {
      forall i: nat | i < |c.texts| ensures !exists k: nat :: OccursAt(c.texts[i], SponsoredMarker, k) {
        ContainsAt(c.texts[i], SponsoredMarker);
      }
    }
  }

  /** The candidate record the page extractor builds from one card. */
  function ExtractRecord(c: Card): Record {
    Record(ExtractImage(c), ExtractTitle(c), ExtractRating(c), ExtractPrice(c), CheckSponsored(c))
  }

  /** The record of this card is kept, i.e. its title is not the sentinel. */
  predicate Titled(c: Card) {
    ExtractRecord(c).title != NoTitle
  }

  /** A card is kept exactly when it has a heading whose stripped text is not the literal
      sentinel; a heading with empty or whitespace-only text gives a kept record with the
      empty title. */
  lemma TitledExactly(c: Card)
    ensures Titled(c) <==> c.title.Some? && Strip(c.title.value) != NoTitle
    ensures c.title.Some? && AllSpace(c.title.value) ==> Titled(c) && ExtractRecord(c).title == ""
  {
    if c.title.Some? && AllSpace(c.title.value) {
      StripAllSpace(c.title.value);
    }
  }
}
