/**
 * The rental offer document as the schema declares it: its validators as a
 * validity predicate and as the list of failing paths validation reports, and
 * the `rating` virtual computed by `calculateRating` from the offer's comments.
 * The lists behind the `city` and `facilities` enumerations are parameters.
 */
module OfferSchema {
  import opened Common
  import opened Text
  import Offers

  /** A stored comment (`IComment`); `rating` is a JavaScript number. */
  datatype CommentDocument = CommentDocument(id: string, text: string, rating: real, userId: string, offerId: string)

  /** The comment schema's bounds: text of 5..1024 UTF-16 code units, rating in 1..5. */
  predicate CommentValid(c: CommentDocument) {
    5 <= Utf16Length(c.text) <= 1024 && 1.0 <= c.rating <= 5.0
  }

  /** A stored offer (`IRentalOffer`); numbers are JavaScript numbers, `publishDate` in epoch milliseconds. */
  datatype OfferDocument = OfferDocument(
    id: string,
    title: string,
    description: string,
    publishDate: int,
    city: string,
    previewImage: string,
    photos: seq<string>,
    isPremium: bool,
    isFavorite: bool,
    housingType: string,
    rooms: real,
    guests: real,
    price: real,
    facilities: seq<string>,
    author: string,
    commentsCount: real,
    coordinates: seq<real>)

  /** The schema's length (in UTF-16 code units), range and enumeration bounds. */
  predicate OfferValid(o: OfferDocument, cities: seq<string>, facilityNames: seq<string>) {
    && 10 <= Utf16Length(o.title) <= 100
    && 20 <= Utf16Length(o.description) <= 1024
    && o.city in cities
    && o.housingType in Offers.HousingTypeNames
    && 1.0 <= o.rooms <= 8.0
    && 1.0 <= o.guests <= 10.0
    && 100.0 <= o.price <= 100000.0
    && forall i :: 0 <= i < |o.facilities| ==> o.facilities[i] in facilityNames
  }

  /** A validator failure, by path. */
  datatype SchemaError =
    | TitleLength
    | DescriptionLength
    | CityNotAllowed
    | HousingTypeNotAllowed
    | RoomsOutOfRange
    | GuestsOutOfRange
    | PriceOutOfRange
    | FacilityNotAllowed(index: nat)

  /** The facilities outside the enumeration, by index. */
  function FacilityErrors(fs: seq<string>, facilityNames: seq<string>): set<SchemaError> {
    set i | 0 <= i < |fs| && fs[i] !in facilityNames :: FacilityNotAllowed(i)
  }

  /** A facility error names exactly the indices whose facility is outside the enumeration. */
  lemma FacilityErrorsExact(fs: seq<string>, facilityNames: seq<string>)
    ensures forall k: nat :: FacilityNotAllowed(k) in FacilityErrors(fs, facilityNames) <==> k < |fs| && fs[k] !in facilityNames
    ensures FacilityErrors(fs, facilityNames) == {} <==> forall i :: 0 <= i < |fs| ==> fs[i] in facilityNames
    ensures forall e :: e in FacilityErrors(fs, facilityNames) ==> e.FacilityNotAllowed?
  {
    if FacilityErrors(fs, facilityNames) == {} {
      forall i | 0 <= i < |fs| ensures fs[i] in facilityNames {
        assert FacilityNotAllowed(i) !in FacilityErrors(fs, facilityNames);
      }
    }
  }

  /** The paths of the single-valued fields. */
  const FieldPaths: set<SchemaError> :=
    {TitleLength, DescriptionLength, CityNotAllowed, HousingTypeNotAllowed, RoomsOutOfRange, GuestsOutOfRange, PriceOutOfRange}

  /** Whether the validator of a single-valued path rejects the document. */
  predicate FieldFails(e: SchemaError, o: OfferDocument, cities: seq<string>) {
    match e
    case TitleLength => !(10 <= Utf16Length(o.title) <= 100)
    case DescriptionLength => !(20 <= Utf16Length(o.description) <= 1024)
    case CityNotAllowed => o.city !in cities
    case HousingTypeNotAllowed => o.housingType !in Offers.HousingTypeNames
    case RoomsOutOfRange => !(1.0 <= o.rooms <= 8.0)
    case GuestsOutOfRange => !(1.0 <= o.guests <= 10.0)
    case PriceOutOfRange => !(100.0 <= o.price <= 100000.0)
    case FacilityNotAllowed(_) => false
  }

  /** The failing paths among the single-valued fields. */
  function FieldErrors(o: OfferDocument, cities: seq<string>): set<SchemaError> {
    set e | e in FieldPaths && FieldFails(e, o, cities)
  }

  /** No single-valued path fails exactly when all the scalar bounds of the schema hold. */
  lemma FieldErrorsEmpty(o: OfferDocument, cities: seq<string>)
    ensures FieldErrors(o, cities) == {} <==>
      && 10 <= Utf16Length(o.title) <= 100 && 20 <= Utf16Length(o.description) <= 1024 && o.city in cities
      && o.housingType in Offers.HousingTypeNames && 1.0 <= o.rooms <= 8.0 && 1.0 <= o.guests <= 10.0
      && 100.0 <= o.price <= 100000.0
  {
    var errors := FieldErrors(o, cities);
    if !(10 <= Utf16Length(o.title) <= 100) { assert TitleLength in errors; }
    if !(20 <= Utf16Length(o.description) <= 1024) { assert DescriptionLength in errors; }
    if o.city !in cities { assert CityNotAllowed in errors; }
    if o.housingType !in Offers.HousingTypeNames { assert HousingTypeNotAllowed in errors; }
    if !(1.0 <= o.rooms <= 8.0) { assert RoomsOutOfRange in errors; }
    if !(1.0 <= o.guests <= 10.0) { assert GuestsOutOfRange in errors; }
    if !(100.0 <= o.price <= 100000.0) { assert PriceOutOfRange in errors; }
  }

  /** Every validator run on the document; the failures are keyed by path, as validation reports them. */
  function ValidationErrors(o: OfferDocument, cities: seq<string>, facilityNames: seq<string>): set<SchemaError> {
    FieldErrors(o, cities) + FacilityErrors(o.facilities, facilityNames)
  }

  /** Validation reports a path exactly when that path's bound fails; no report means a valid offer. */
  lemma ValidationErrorsExact(o: OfferDocument, cities: seq<string>, facilityNames: seq<string>)
    ensures var errors := ValidationErrors(o, cities, facilityNames);
      && (errors == {} <==> OfferValid(o, cities, facilityNames))
      && (TitleLength in errors <==> !(10 <= Utf16Length(o.title) <= 100))
      && (DescriptionLength in errors <==> !(20 <= Utf16Length(o.description) <= 1024))
      && (CityNotAllowed in errors <==> o.city !in cities)
      && (HousingTypeNotAllowed in errors <==> o.housingType !in Offers.HousingTypeNames)
      && (RoomsOutOfRange in errors <==> !(1.0 <= o.rooms <= 8.0))
      && (GuestsOutOfRange in errors <==> !(1.0 <= o.guests <= 10.0))
      && (PriceOutOfRange in errors <==> !(100.0 <= o.price <= 100000.0))
      && (forall k: nat :: FacilityNotAllowed(k) in errors <==> k < |o.facilities| && o.facilities[k] !in facilityNames)
  {
    FacilityErrorsExact(o.facilities, facilityNames);
    FieldErrorsEmpty(o, cities);
    var fieldErrors := FieldErrors(o, cities);
    assert forall k: nat :: FacilityNotAllowed(k) !in fieldErrors;
  }

  /** `CommentModel.find({ offerId })`: the comments of one offer, in store order. */
  function CommentsOf(offerId: string, comments: seq<CommentDocument>): (matching: seq<CommentDocument>)
    ensures |matching| <= |comments|
    ensures forall i :: 0 <= i < |matching| ==> matching[i].offerId == offerId && matching[i] in comments
    ensures forall c :: c in comments && c.offerId == offerId ==> c in matching
    decreases |comments|
  {
    if |comments| == 0 then []
    else (if comments[0].offerId == offerId then [comments[0]] else []) + CommentsOf(offerId, comments[1..])
  }

  /** `comments.reduce((sum, comment) => sum + comment.rating, 0)`. */
  function RatingSum(cs: seq<CommentDocument>): real
    decreases |cs|
  {
    if |cs| == 0 then 0.0 else RatingSum(cs[..|cs| - 1]) + cs[|cs| - 1].rating
  }

  /** The nearest tenth of a non-negative number, a half rounded up. */
  function RoundHalfUpToTenth(x: real): (r: real)
    requires x >= 0.0
    ensures x - 0.05 < r <= x + 0.05
  {
    ((x * 10.0 + 0.5).Floor as real) / 10.0
  }

  /** `Number(x.toFixed(1))`: the nearest tenth, a half rounded away from zero. */
  function ToFixed1(x: real): (r: real)
    ensures -0.05 <= r - x <= 0.05
  {
    if x < 0.0 then -RoundHalfUpToTenth(-x) else RoundHalfUpToTenth(x)
  }

  /** The rating of a list of comments: 0 when empty, otherwise the mean of their ratings to one decimal. */
  function MeanRating(matching: seq<CommentDocument>): (rating: real)
    ensures matching == [] ==> rating == 0.0
    ensures matching != [] ==> -0.05 <= rating - RatingSum(matching) / (|matching| as real) <= 0.05
  {
    if |matching| == 0 then 0.0 else ToFixed1(RatingSum(matching) / (|matching| as real))
  }

  /**
   * `calculateRating`: the rating of the comments whose `offerId` is the
   * offer's: 0 for an offer without comments, otherwise within 0.05 of the
   * exact mean of their ratings.
   */
  function CalculateRating(offerId: string, comments: seq<CommentDocument>): (rating: real)
    ensures CommentsOf(offerId, comments) == [] ==> rating == 0.0
    ensures CommentsOf(offerId, comments) != [] ==>
      var matching := CommentsOf(offerId, comments);
      -0.05 <= rating - RatingSum(matching) / (|matching| as real) <= 0.05
  {
    MeanRating(CommentsOf(offerId, comments))
  }

  /** Filtering distributes over concatenation. */
  lemma {:induction false} CommentsOfAppend(offerId: string, a: seq<CommentDocument>, b: seq<CommentDocument>)
    ensures CommentsOf(offerId, a + b) == CommentsOf(offerId, a) + CommentsOf(offerId, b)
    decreases |a|
  {
    if |a| > 0 {
      var head := if a[0].offerId == offerId then [a[0]] else [];
      assert (a + b)[0] == a[0];
      assert (a + b)[1..] == a[1..] + b;
      assert CommentsOf(offerId, a + b) == head + CommentsOf(offerId, a[1..] + b);
      assert CommentsOf(offerId, a) == head + CommentsOf(offerId, a[1..]);
      CommentsOfAppend(offerId, a[1..], b);
    } else {
      assert a + b == b;
    }
  }

  /** Only the offer's own comments contribute: a comment of another offer changes nothing, wherever it is. */
  lemma OtherOffersCommentsIgnored(offerId: string, a: seq<CommentDocument>, c: CommentDocument, b: seq<CommentDocument>)
    requires c.offerId != offerId
    ensures CalculateRating(offerId, a + [c] + b) == CalculateRating(offerId, a + b)
  {
    CommentsOfSkips(offerId, a, c, b);
  }

  /** Finding an offer's comments skips a comment of another offer. */
  lemma CommentsOfSkips(offerId: string, a: seq<CommentDocument>, c: CommentDocument, b: seq<CommentDocument>)
    requires c.offerId != offerId
    ensures CommentsOf(offerId, a + [c] + b) == CommentsOf(offerId, a + b)
  {
    var found := CommentsOf(offerId, a);
    assert CommentsOf(offerId, [c]) == [] by {
      assert [c][1..] == [];
    }
    CommentsOfAppend(offerId, a, [c]);
    assert CommentsOf(offerId, a + [c]) == found + [];
    assert found + [] == found;
    CommentsOfAppend(offerId, a + [c], b);
    CommentsOfAppend(offerId, a, b);
  }

  /** A sum of ratings in 1..5 lies between the count and five times the count. */
  lemma {:induction false} RatingSumBounds(cs: seq<CommentDocument>)
    requires forall i :: 0 <= i < |cs| ==> 1.0 <= cs[i].rating <= 5.0
    ensures |cs| as real <= RatingSum(cs) <= 5.0 * (|cs| as real)
    decreases |cs|
  {
    if |cs| > 0 {
      RatingSumBounds(cs[..|cs| - 1]);
    }
  }

  /** When every comment of the offer is valid, a rating computed from at least one comment lies in 1..5. */
  lemma RatingWithinCommentBounds(offerId: string, comments: seq<CommentDocument>)
    requires forall c :: c in comments && c.offerId == offerId ==> CommentValid(c)
    requires CommentsOf(offerId, comments) != []
    ensures 1.0 <= CalculateRating(offerId, comments) <= 5.0
  {
    var matching := CommentsOf(offerId, comments);
    forall i | 0 <= i < |matching| ensures 1.0 <= matching[i].rating <= 5.0 {
      assert matching[i] in comments && matching[i].offerId == offerId;
    }
    RatingSumBounds(matching);
    var mean := RatingSum(matching) / (|matching| as real);
    MeanBounds(RatingSum(matching), |matching| as real);
    ToFixed1Bounds(mean);
    assert CalculateRating(offerId, comments) == ToFixed1(mean);
  }

  /** A total between `n` and `5n` has a mean in 1..5. */
  lemma MeanBounds(total: real, n: real)
    requires n > 0.0
    requires n <= total <= 5.0 * n
    ensures 1.0 <= total / n <= 5.0
  {
    var mean := total / n;
    assert mean * n == total;
    assert (mean - 1.0) * n == total - n;
    assert (5.0 - mean) * n == 5.0 * n - total;
    SignOfProduct(mean - 1.0, n);
    SignOfProduct(5.0 - mean, n);
  }

  /** A product with a positive factor has the sign of the other factor. */
  lemma SignOfProduct(a: real, n: real)
    requires n > 0.0
    ensures a * n >= 0.0 ==> a >= 0.0
  {
    if a < 0.0 {
      assert a * n < 0.0;
    }
  }

  /** Rounding to a tenth keeps a number of 1..5 within 1..5. */
  lemma ToFixed1Bounds(x: real)
    requires 1.0 <= x <= 5.0
    ensures 1.0 <= ToFixed1(x) <= 5.0
  {
    var y := x * 10.0 + 0.5;
    assert 10.5 <= y <= 50.5;
    assert 10 <= y.Floor <= 50;
  }
}
