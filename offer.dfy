/**
 * The domain values the TSV import and export work on: `RentalOffer`, its
 * author `User`, the housing types, and the JavaScript numbers and dates whose
 * conversions the model leaves abstract.
 */
module Offers {
  import opened Common

  /** A JavaScript number as far as the model needs one: a real value or `NaN`. */
  datatype Num = Num(value: real) | NaN

  /** A JavaScript `Date`: milliseconds since the epoch, or an invalid date. */
  datatype Date = Date(epochMillis: int) | InvalidDate

  /** `HousingTypes`. */
  datatype HousingType = Apartment | House | Room | Hotel

  const HousingTypeNames: seq<string> := ["apartment", "house", "room", "hotel"]

  function HousingTypeName(h: HousingType): string {
    match h
    case Apartment => "apartment"
    case House => "house"
    case Room => "room"
    case Hotel => "hotel"
  }

  /** `HousingType[name]`: the housing type with that name, `undefined` for any other string. */
  function HousingTypeNamed(name: string): (h: Option<HousingType>)
    ensures h.Some? <==> name in HousingTypeNames
  {
    if name == "apartment" then Some(Apartment)
    else if name == "house" then Some(House)
    else if name == "room" then Some(Room)
    else if name == "hotel" then Some(Hotel)
    else None
  }

  /** Names and housing types correspond one to one. */
  lemma HousingTypeNamesRoundTrip(h: HousingType, name: string)
    ensures HousingTypeNamed(HousingTypeName(h)) == Some(h)
    ensures HousingTypeNamed(name) == Some(h) ==> HousingTypeName(h) == name
  {
  }

  /** `User`: `avatar` and `userType` may be left `undefined` by a caller. */
  datatype User = User(
    id: string,
    name: string,
    email: string,
    password: string,
    userType: Option<string>,
    avatar: Option<string>)

  /** `RentalOffer`, with its author object in the author slot. */
  datatype RentalOffer = RentalOffer(
    title: string,
    description: string,
    publishDate: Date,
    city: string,
    previewImage: string,
    photos: seq<string>,
    isPremium: bool,
    isFavorite: bool,
    rating: Num,
    housingType: Option<HousingType>,
    rooms: Num,
    guests: Num,
    price: Num,
    facilities: seq<string>,
    author: User,
    commentsCount: Num,
    coordinates: seq<Num>)
}
