/**
 * `parseTsvToRentalOffers`: every line of the file with exactly seventeen
 * tab-separated fields becomes one offer, in file order; every other line is
 * skipped. Reading the file is left out: the lines are the input.
 */
module TsvParser {
  import opened Common
  import opened Text
  import opened Offers

  const FieldCount: nat := 17

  /** The author every parsed offer gets, bound positionally to `User(id, name, email, password, userType, avatar)`. */
  const PlaceholderName: string := "main"
  const PlaceholderEmail: string := "psw"
  /** `UserType.Pro`, which lands in the password slot. */
  const ProUserType: string := "pro"

  /** `Number(text)` and `new Date(text)`, left abstract. */
  datatype Conversions = Conversions(toNumber: string -> Num, toDate: string -> Date)

  /** `new User(authorId, 'main', 'psw', UserType.Pro)`. */
  function PlaceholderAuthor(authorId: string): User {
    User(authorId, PlaceholderName, PlaceholderEmail, ProUserType, None, None)
  }

  /** The offer built from the seventeen fields of one line. */
  function OfferFromFields(f: seq<string>, conv: Conversions): RentalOffer
    requires |f| == FieldCount
  {
    RentalOffer(
      f[0], f[1], conv.toDate(f[2]), f[3], f[4],
      Split(f[5], ','),
      f[6] == "true", f[7] == "true",
      conv.toNumber(f[8]),
      HousingTypeNamed(f[9]),
      conv.toNumber(f[10]), conv.toNumber(f[11]), conv.toNumber(f[12]),
      Split(f[13], ','),
      PlaceholderAuthor(f[14]),
      conv.toNumber(f[15]),
      seq(|Split(f[16], ',')|, i requires 0 <= i < |Split(f[16], ',')| => conv.toNumber(Split(f[16], ',')[i])))
  }

  /** One line: an offer exactly when splitting it on tabs gives seventeen fields. */
  function ParseLine(line: string, conv: Conversions): (r: Option<RentalOffer>)
    ensures r.Some? <==> |Split(line, '\t')| == FieldCount
    ensures r.Some? <==> Occurrences(line, '\t') == FieldCount - 1
  {
    SplitCount(line, '\t');
    var f := Split(line, '\t');
    if |f| != FieldCount then None else Some(OfferFromFields(f, conv))
  }

  /** The offers one line contributes: one, or none when it is skipped. */
  function LineOffers(line: string, conv: Conversions): (offers: seq<RentalOffer>)
    ensures |offers| == if |Split(line, '\t')| == FieldCount then 1 else 0
  {
    match ParseLine(line, conv)
    case None => []
    case Some(offer) => [offer]
  }

  /** The offers of `lines`, accumulated line by line. */
  function ParseLines(lines: seq<string>, conv: Conversions): (offers: seq<RentalOffer>)
    ensures |offers| <= |lines|
    decreases |lines|
  {
    if |lines| == 0 then []
    else ParseLines(lines[..|lines| - 1], conv) + LineOffers(lines[|lines| - 1], conv)
  }

  /**
   * The `for await` loop: split each line, skip it unless it has seventeen
   * fields, otherwise convert the fields and push the offer.
   */
  method ParseTsvToRentalOffers(lines: seq<string>, conv: Conversions) returns (rentalOffers: seq<RentalOffer>)
    ensures rentalOffers == ParseLines(lines, conv)
  {
    rentalOffers := [];
    var n := 0;
    while n < |lines|
      invariant 0 <= n <= |lines|
      invariant rentalOffers == ParseLines(lines[..n], conv)
    {
      var line := lines[n];
      var elements := Split(line, '\t');
      assert lines[..n + 1][..n] == lines[..n] && lines[..n + 1][n] == line;
      assert ParseLines(lines[..n + 1], conv) == rentalOffers + LineOffers(line, conv);
      if |elements| == FieldCount {
        rentalOffers := rentalOffers + [OfferFromFields(elements, conv)];
      }
      n := n + 1;
    }
    assert lines[..n] == lines;
  }

  /** What a parsed line holds, field by field. */
  lemma ParseLineFields(line: string, conv: Conversions)
    requires |Split(line, '\t')| == FieldCount
    ensures var f := Split(line, '\t');
      var offer := ParseLine(line, conv).value;
      && offer.title == f[0] && offer.description == f[1] && offer.city == f[3] && offer.previewImage == f[4]
      && (offer.isPremium <==> f[6] == "true")
      && (offer.isFavorite <==> f[7] == "true")
      && offer.photos == Split(f[5], ',') && |offer.photos| >= 1 && Join(offer.photos, ',') == f[5]
      && offer.facilities == Split(f[13], ',') && |offer.facilities| >= 1 && Join(offer.facilities, ',') == f[13]
      && |offer.coordinates| == Occurrences(f[16], ',') + 1
      && offer.author == User(f[14], PlaceholderName, PlaceholderEmail, ProUserType, None, None)
      && offer.rating == conv.toNumber(f[8])
      && offer.housingType == HousingTypeNamed(f[9])
  {
    var f := Split(line, '\t');
    JoinSplit(f[5], ',');
    JoinSplit(f[13], ',');
    SplitCount(f[16], ',');
  }

  /** The number of lines that split into seventeen fields. */
  function CountWellFormed(lines: seq<string>): nat
    decreases |lines|
  {
    if |lines| == 0 then 0
    else CountWellFormed(lines[..|lines| - 1]) + (if |Split(lines[|lines| - 1], '\t')| == FieldCount then 1 else 0)
  }

  /** One offer per seventeen-field line, whatever the other lines hold. */
  lemma {:induction false} ParseLinesCount(lines: seq<string>, conv: Conversions)
    ensures |ParseLines(lines, conv)| == CountWellFormed(lines)
    decreases |lines|
  {
    if |lines| > 0 {
      ParseLinesCount(lines[..|lines| - 1], conv);
    }
  }

  /** Parsing distributes over concatenation: offers come out in line order. */
  lemma {:induction false} ParseLinesAppend(a: seq<string>, b: seq<string>, conv: Conversions)
    ensures ParseLines(a + b, conv) == ParseLines(a, conv) + ParseLines(b, conv)
    decreases |b|
  {
    if |b| > 0 {
      var last := b[|b| - 1];
      var b' := b[..|b| - 1];
      assert (a + b)[..|a + b| - 1] == a + b';
      assert (a + b)[|a + b| - 1] == last;
      assert ParseLines(a + b, conv) == ParseLines(a + b', conv) + LineOffers(last, conv);
      assert ParseLines(b, conv) == ParseLines(b', conv) + LineOffers(last, conv);
      ParseLinesAppend(a, b', conv);
    } else {
      assert a + b == a;
    }
  }

  /** When every line has seventeen fields, line `i` gives offer `i`. */
  lemma {:induction false} ParseLinesAllWellFormed(lines: seq<string>, conv: Conversions)
    requires forall i :: 0 <= i < |lines| ==> |Split(lines[i], '\t')| == FieldCount
    ensures |ParseLines(lines, conv)| == |lines|
    ensures forall i :: 0 <= i < |lines| ==> ParseLines(lines, conv)[i] == OfferFromFields(Split(lines[i], '\t'), conv)
    decreases |lines|
  {
    if |lines| > 0 {
      var init := lines[..|lines| - 1];
      assert forall i :: 0 <= i < |init| ==> init[i] == lines[i];
      ParseLinesAllWellFormed(init, conv);
    }
  }

  /** When no line has seventeen fields, nothing is parsed. */
  lemma {:induction false} ParseLinesNoneWellFormed(lines: seq<string>, conv: Conversions)
    requires forall i :: 0 <= i < |lines| ==> |Split(lines[i], '\t')| != FieldCount
    ensures ParseLines(lines, conv) == []
    decreases |lines|
  {
    if |lines| > 0 {
      var init := lines[..|lines| - 1];
      assert forall i :: 0 <= i < |init| ==> init[i] == lines[i];
      ParseLinesNoneWellFormed(init, conv);
    }
  }
}
