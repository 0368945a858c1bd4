/** `CLDFCognateSet`, the record the cognate-set importer fills. */
module CognateSetRecord {

  datatype CognateSet = CognateSet(cogsetID: string, description: string, sources: seq<string>)

  /** A new cognate set: empty id and description and no sources. */
  predicate IsNew(c: CognateSet) {
    c.cogsetID == "" && c.description == "" && c.sources == []
  }

  /** A freshly constructed cognate set. */
  function NewCognateSet(): (r: CognateSet)
    ensures IsNew(r)
  {
    CognateSet("", "", [])
  }

  /** `setCogsetID`; `getCogsetID` reads the same field back. */
  function SetCogsetID(c: CognateSet, cogsetID: string): (r: CognateSet)
    ensures r.cogsetID == cogsetID
    ensures r.(cogsetID := c.cogsetID) == c
  {
    c.(cogsetID := cogsetID)
  }

  function SetDescription(c: CognateSet, description: string): (r: CognateSet)
    ensures r.description == description
    ensures r.(description := c.description) == c
  {
    c.(description := description)
  }

  /** `setSources` keeps the list as given, order and repetitions included. */
  function SetSources(c: CognateSet, sources: seq<string>): (r: CognateSet)
    ensures |r.sources| == |sources|
    ensures forall k :: 0 <= k < |sources| ==> r.sources[k] == sources[k]
    ensures r.(sources := c.sources) == c
  {
    c.(sources := sources)
  }
}
