/**
 * `saveDataToFile`, serialisation only: one line per offer, in order, joined by
 * line breaks, each line twenty-two tab-joined fields. Writing the file is
 * left out.
 */
module TsvWriter {
  import opened Common
  import opened Text
  import opened Offers
  import TsvParser

  const OfferFieldCount: nat := 22

  /**
   * How numbers and dates print: `String(number)` and `date.toISOString()`, left
   * abstract; `isoText` is only consulted for a valid date.
   */
  datatype Formats = Formats(numberText: Num -> string, isoText: Date -> string)

  /** `String(b)`. */
  function BoolText(b: bool): string {
    if b then "true" else "false"
  }

  /** `Array.prototype.join` prints `undefined` as the empty string. */
  function OptionalText(s: Option<string>): string {
    match s
    case None => ""
    case Some(t) => t
  }

  function HousingTypeText(h: Option<HousingType>): string {
    match h
    case None => ""
    case Some(t) => HousingTypeName(t)
  }

  /** `coordinates.join(',')` prints each number. */
  function NumbersText(ns: seq<Num>, fmt: Formats): seq<string> {
    seq(|ns|, i requires 0 <= i < |ns| => fmt.numberText(ns[i]))
  }

  /** The fields of one offer's line, in column order. */
  function OfferFields(offer: RentalOffer, fmt: Formats): seq<string> {
    [ offer.title,
      offer.description,
      fmt.isoText(offer.publishDate),
      offer.city,
      offer.previewImage,
      Join(offer.photos, ','),
      BoolText(offer.isPremium),
      BoolText(offer.isFavorite),
      fmt.numberText(offer.rating),
      HousingTypeText(offer.housingType),
      fmt.numberText(offer.rooms),
      fmt.numberText(offer.guests),
      fmt.numberText(offer.price),
      Join(offer.facilities, ','),
      offer.author.id,
      offer.author.name,
      offer.author.email,
      offer.author.password,
      OptionalText(offer.author.userType),
      OptionalText(offer.author.avatar),
      fmt.numberText(offer.commentsCount),
      Join(NumbersText(offer.coordinates, fmt), ',') ]
  }

  /** One offer's line. */
  function OfferLine(offer: RentalOffer, fmt: Formats): string {
    Join(OfferFields(offer, fmt), '\t')
  }

  /** The lines of all offers, in order. */
  function OfferLines(data: seq<RentalOffer>, fmt: Formats): (lines: seq<string>)
    ensures |lines| == |data|
  {
    seq(|data|, i requires 0 <= i < |data| => OfferLine(data[i], fmt))
  }

  /** `toISOString()` throws a `RangeError` on an invalid date: an offer prints only with a valid one. */
  predicate Writable(offer: RentalOffer) {
    offer.publishDate.Date?
  }

  /**
   * The file contents, or `None` when serialising throws on an invalid date;
   * the empty string exactly when there are no offers, no trailing line break.
   */
  function SaveDataToFile(data: seq<RentalOffer>, fmt: Formats): (tsv: Option<string>)
    ensures tsv.Some? <==> forall i :: 0 <= i < |data| ==> Writable(data[i])
    ensures tsv.Some? ==> (tsv.value == "" <==> data == [])
  {
    if !(forall i :: 0 <= i < |data| ==> Writable(data[i])) then None
    else
      var lines := OfferLines(data, fmt);
      assert |data| > 0 ==> Join(lines, '\n') != "" by {
        if |data| > 0 {
          JoinLength(OfferFields(data[0], fmt), '\t');
          assert |lines[0]| >= OfferFieldCount - 1;
        }
      }
      Some(Join(lines, '\n'))
  }

  /** No field of the offer's line holds a tab or a line break. */
  predicate Clean(offer: RentalOffer, fmt: Formats) {
    forall i :: 0 <= i < |OfferFields(offer, fmt)| ==> '\t' !in OfferFields(offer, fmt)[i] && '\n' !in OfferFields(offer, fmt)[i]
  }

  /**
   * A clean offer's line splits back on tabs into its twenty-two fields: title
   * first, city fourth, the comma-joined lists in their single fields, the
   * author's id, name, email, password, type and avatar in fields 15 to 20,
   * and the comment count in field 21.
   */
  lemma OfferLineFields(offer: RentalOffer, fmt: Formats)
    requires Clean(offer, fmt)
    ensures var f := Split(OfferLine(offer, fmt), '\t');
      && |f| == OfferFieldCount
      && f == OfferFields(offer, fmt)
      && f[0] == offer.title && f[3] == offer.city
      && f[5] == Join(offer.photos, ',') && f[13] == Join(offer.facilities, ',')
      && f[14] == offer.author.id && f[15] == offer.author.name && f[16] == offer.author.email
      && f[17] == offer.author.password && f[18] == OptionalText(offer.author.userType)
      && f[19] == OptionalText(offer.author.avatar)
      && f[20] == fmt.numberText(offer.commentsCount)
      && f[21] == Join(NumbersText(offer.coordinates, fmt), ',')
  {
    OfferLineSplits(offer, fmt);
  }

  /** A clean offer's line splits back on tabs into exactly its fields. */
  lemma OfferLineSplits(offer: RentalOffer, fmt: Formats)
    requires Clean(offer, fmt)
    ensures Split(OfferLine(offer, fmt), '\t') == OfferFields(offer, fmt)
  {
    var fields := OfferFields(offer, fmt);
    assert forall i :: 0 <= i < |fields| ==> '\t' !in fields[i];
    SplitJoin(fields, '\t');
  }

  /** When every offer is writable and clean, the file splits on line breaks into the offers' lines, in order. */
  lemma SaveDataLines(data: seq<RentalOffer>, fmt: Formats)
    requires data != []
    requires forall i :: 0 <= i < |data| ==> Writable(data[i]) && Clean(data[i], fmt)
    ensures SaveDataToFile(data, fmt).Some?
    ensures var lines := Split(SaveDataToFile(data, fmt).value, '\n');
      && |lines| == |data|
      && forall i :: 0 <= i < |data| ==> lines[i] == OfferLine(data[i], fmt)
  {
    var lines := OfferLines(data, fmt);
    forall i | 0 <= i < |lines| ensures '\n' !in lines[i] {
      JoinAvoids(OfferFields(data[i], fmt), '\t', '\n');
    }
    SplitJoin(lines, '\n');
  }

  /**
   * The importer accepts none of the exporter's lines: a clean line has
   * twenty-two fields and the parser keeps only lines with seventeen.
   */
  lemma ParserSkipsWrittenFile(data: seq<RentalOffer>, fmt: Formats, conv: TsvParser.Conversions)
    requires forall i :: 0 <= i < |data| ==> Writable(data[i]) && Clean(data[i], fmt)
    ensures SaveDataToFile(data, fmt).Some?
    ensures TsvParser.ParseLines(Split(SaveDataToFile(data, fmt).value, '\n'), conv) == []
  {
    var lines := Split(SaveDataToFile(data, fmt).value, '\n');
    if data == [] {
      assert lines == [""];
    } else {
      SaveDataLines(data, fmt);
      forall i | 0 <= i < |lines| ensures |Split(lines[i], '\t')| != TsvParser.FieldCount {
        OfferLineFields(data[i], fmt);
      }
    }
    TsvParser.ParseLinesNoneWellFormed(lines, conv);
  }
}
