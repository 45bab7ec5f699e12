/**
 * The `Lightbox` constructor: checks the platform capabilities, merges the
 * caller's options over the default settings, and initialises the viewer over
 * the links whose `rel` attribute equals the configured value.
 */
module Lightbox {
  import opened Wrappers
  import opened Features
  import opened Merge
  import opened Viewer

  /** The `rel` value selecting gallery links when the options give none. */
  const DefaultRel: string := "lightbox"

  /** A constructed lightbox: its merged settings and its viewer state. */
  datatype Lightbox = Lightbox(settings: map<string, string>, state: State)

  /**
   * `new Lightbox(options)`. `features` are the capability probes, `options` the
   * own properties of the options object (empty when it is omitted), and `query`
   * stands for the document query returning the links with a given `rel`.
   */
  method NewLightbox(features: seq<bool>, options: map<string, string>,
                     query: string -> seq<Item>) returns (r: Result<Lightbox, string>)
    ensures r.Success? <==> forall j :: 0 <= j < |features| ==> features[j]
    ensures r.Failure? ==> r.error == NotAccessibleClient
    ensures r.Success? ==> r.value.settings.Keys == options.Keys + {"rel"}
    ensures r.Success? ==> r.value.settings["rel"]
                           == if "rel" in options then options["rel"] else DefaultRel
    ensures r.Success? ==> forall k :: k in options ==> r.value.settings[k] == options[k]
    ensures r.Success? ==> r.value.state == Init(query(r.value.settings["rel"]))
  {
    var check := CheckFeatures(features);
    if check.Fail? {
      return Failure(check.error);
    }
    var settings := Extend(map["rel" := DefaultRel], options, map[]);
    return Success(Lightbox(settings, Init(query(settings["rel"]))));
  }
}
