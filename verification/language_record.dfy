/** `CLDFLanguage`, the record the language importer fills. */
module LanguageRecord {
  import opened Wrappers

  /**
   * A coordinate as the record stores it: NaN, or a value that
   * `Float.parseFloat` produced from the given text. Float arithmetic is not
   * modelled, so the parsed value is represented by its text.
   */
  datatype Coord = NaN | Parsed(text: string)

  datatype Language = Language(
    langID: string,
    iso: string,
    glottocode: string,
    name: string,
    family: Option<string>,           // never initialised by the constructor
    latitude: Coord,
    longitude: Coord,
    properties: map<string, string>)

  /** A new language: empty strings, NaN coordinates, no properties, and no family at all. */
  predicate IsNew(l: Language) {
    && l.langID == "" && l.iso == "" && l.glottocode == "" && l.name == ""
    && l.family.None? && l.latitude.NaN? && l.longitude.NaN?
    && l.properties == map[]
  }

  /** A freshly constructed language. */
  function NewLanguage(): (r: Language)
    ensures IsNew(r)
  {
    Language("", "", "", "", None, NaN, NaN, map[])
  }

  function SetName(l: Language, name: string): (r: Language)
    ensures r.name == name
    ensures r.(name := l.name) == l
  {
    l.(name := name)
  }

  function SetProperties(l: Language, properties: map<string, string>): (r: Language)
    ensures r.properties == properties
    ensures r.(properties := l.properties) == l
  {
    l.(properties := properties)
  }

  function SetLangID(l: Language, langID: string): (r: Language)
    ensures r.langID == langID
    ensures r.(langID := l.langID) == l
  {
    l.(langID := langID)
  }

  function SetIso(l: Language, iso: string): (r: Language)
    ensures r.iso == iso
    ensures r.(iso := l.iso) == l
  {
    l.(iso := iso)
  }

  function SetGlottocode(l: Language, glottocode: string): (r: Language)
    ensures r.glottocode == glottocode
    ensures r.(glottocode := l.glottocode) == l
  {
    l.(glottocode := glottocode)
  }

  function SetFamily(l: Language, family: string): (r: Language)
    ensures r.family == Some(family)
    ensures r.(family := l.family) == l
  {
    l.(family := Some(family))
  }

  function SetLatitude(l: Language, latitude: Coord): (r: Language)
    ensures r.latitude == latitude
    ensures r.(latitude := l.latitude) == l
  {
    l.(latitude := latitude)
  }

  function SetLongitude(l: Language, longitude: Coord): (r: Language)
    ensures r.longitude == longitude
    ensures r.(longitude := l.longitude) == l
  {
    l.(longitude := longitude)
  }

  /** Latitude and longitude are separate fields: setting them in either order gives the same record. */
  lemma CoordinatesIndependent(l: Language, latitude: Coord, longitude: Coord)
    ensures SetLongitude(SetLatitude(l, latitude), longitude) == SetLatitude(SetLongitude(l, longitude), latitude)
    ensures SetLatitude(l, latitude).longitude == l.longitude
    ensures SetLongitude(l, longitude).latitude == l.latitude
  {
  }
}
