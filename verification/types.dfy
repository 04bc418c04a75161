/** The products of the version service and the game flavors (types.py). */
module Types {

  /** Every product the tool asks the version service about: the three full
      products (`FullProduct`, also `GameFlavor`), their beta products
      (`BetaProduct`) and their test products (`TestProduct`). */
  datatype Product =
    | Wow | WowClassic | WowClassicEra
    | WowBeta | WowClassicBeta | WowClassicEraBeta
    | Wowt | Wowxptr | WowClassicPtr | WowClassicEraPtr
  {
    predicate IsFull() { Wow? || WowClassic? || WowClassicEra? }

    predicate IsBeta() { WowBeta? || WowClassicBeta? || WowClassicEraBeta? }

    predicate IsTest() { Wowt? || Wowxptr? || WowClassicPtr? || WowClassicEraPtr? }

    /** The product's identifier on the version service, also its cache key. */
    function Name(): string {
      match this
      case Wow => "wow"
      case WowClassic => "wow_classic"
      case WowClassicEra => "wow_classic_era"
      case WowBeta => "wow_beta"
      case WowClassicBeta => "wow_classic_beta"
      case WowClassicEraBeta => "wow_classic_era_beta"
      case Wowt => "wowt"
      case Wowxptr => "wowxptr"
      case WowClassicPtr => "wow_classic_ptr"
      case WowClassicEraPtr => "wow_classic_era_ptr"
    }

    /** The game flavor whose clients the product serves. */
    function Flavor(): FullProduct {
      match this
      case Wow | WowBeta | Wowt | Wowxptr => Wow
      case WowClassic | WowClassicBeta | WowClassicPtr => WowClassic
      case WowClassicEra | WowClassicEraBeta | WowClassicEraPtr => WowClassicEra
    }
  }

  /** `FullProduct`: the products a file can be updated for. */
  type FullProduct = p: Product | p.IsFull() witness Wow
}
