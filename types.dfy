/** The record types of the permutation wizard: one catalog item and its two closed enumerations. */
module Types {

  /** The colour of a QR code variant. */
  datatype QRColor = Blue | Green

  /** The call-to-action text printed under a QR code variant. */
  datatype CallToAction = ScanHere | PointAimShoot

  /** The label a call to action shows on screen. */
  function CallToActionText(c: CallToAction): (t: string)
    ensures c == ScanHere <==> t == "Scan Here"
    ensures c == PointAimShoot <==> t == "Point. Aim. Shoot"
  {
    match c
    case ScanHere => "Scan Here"
    case PointAimShoot => "Point. Aim. Shoot"
  }

  /**
   * One catalog record. The id is the only key the selection compares;
   * the two timestamps of the record are read by nothing and are not modelled.
   */
  datatype PermutationData = PermutationData(
    id: string,
    name: string,
    brand: seq<string>,
    campaign: string,
    variables: (QRColor, CallToAction))
}
