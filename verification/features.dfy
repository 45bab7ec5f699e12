/**
 * `checkFeatures`: construction of a lightbox fails with one fixed message unless
 * every probed platform capability is present.
 */
module Features {
  import opened Wrappers

  /** The message of the error thrown for an incompatible client. */
  const NotAccessibleClient: string := "It's not compatible client, for using `vanilla-lightbox`"

  /** Scans the capability flags in order and fails at the first missing one. */
  method CheckFeatures(features: seq<bool>) returns (r: Outcome<string>)
    ensures r.Pass? <==> forall j :: 0 <= j < |features| ==> features[j]
    ensures r.Fail? ==> r.error == NotAccessibleClient
  {
    var i := 0;
    while i < |features|
      invariant 0 <= i <= |features|
      invariant forall j :: 0 <= j < i ==> features[j]
    {
      if !features[i] {
        return Fail(NotAccessibleClient);
      }
      i := i + 1;
    }
    return Pass;
  }
}
