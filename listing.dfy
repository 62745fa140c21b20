/** `ExitListing`: a lease-takeover listing of the Exit Board. */
module Listing {
  import opened Wrappers

  datatype HousingType = Apartment | House | Townhouse | Other

  /** The name a housing type has in stored records and in the filter menu. */
  function HousingName(h: HousingType): (name: string)
    ensures name != ""
  {
    match h
    case Apartment => "apartment"
    case House => "house"
    case Townhouse => "townhouse"
    case Other => "other"
  }

  datatype Status = Active | Deleted

  /** Rents and deposits are whole amounts; dates are the stored ISO strings. */
  datatype ExitListing = ExitListing(
    id: string,
    createdAt: string,
    userId: string,
    city: string,
    state: string,
    neighborhood: Option<string>,
    rent: int,
    deposit: Option<int>,
    leaseEndDate: string,
    earliestMoveInDate: string,
    bedsBaths: string,
    housingType: HousingType,
    description: string,
    reason: Option<string>,
    contact: string,
    status: Status
  )
}
