/** The delivery area shared by registration and checkout. */
module Delivery {
  import opened Text

  /** Only Mumbai pincodes, which start with "400", are served. */
  const MumbaiPrefix := "400"

  /** The pincode check both forms make: the prefix only, not the length
      or the digits. */
  predicate InDeliveryArea(pincode: string) {
    StartsWith(pincode, MumbaiPrefix)
  }
}
