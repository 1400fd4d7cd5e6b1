/** The listing record the store holds, and the enumerations its fields draw from. */
module Listings {
  import opened Wrappers
  import opened Strings

  /** The `PropertyType` enumeration of the store's schema. */
  datatype PropertyType = House | Villa | Apartment | Studio | Plot

  /** The stored name of a property type, as the enumeration spells it. */
  function TypeName(t: PropertyType): string
  {
    match t
    case House => "HOUSE"
    case Villa => "VILLA"
    case Apartment => "APARTMENT"
    case Studio => "STUDIO"
    case Plot => "PLOT"
  }

  /** Distinct property types have distinct stored names. */
  lemma TypeNameInjective(s: PropertyType, t: PropertyType)
    ensures TypeName(s) == TypeName(t) <==> s == t
  {
    if s != t {
      assert TypeName(s)[0] != TypeName(t)[0];
    }
  }

  /** Whether a listing is offered for rent or for sale. */
  datatype ForType = Rent | Sale

  function ForTypeName(f: ForType): string
  {
    match f
    case Rent => "RENT"
    case Sale => "SALE"
  }

  /** A listing as the store returns it. `forType` is kept as the text the listing was created
      with; the nullable columns are options. `createdAt` is the creation time stamp, in any unit
      that orders listings by age. */
  datatype Listing = Listing(
    id: string,
    title: string,
    description: string,
    address: string,
    city: string,
    state: string,
    pincode: string,
    price: int,
    propertyType: PropertyType,
    phone: Option<string>,
    bedrooms: Option<int>,
    area: Option<int>,
    areaUnit: Option<string>,
    forType: string,
    userId: string,
    createdAt: int)
}
