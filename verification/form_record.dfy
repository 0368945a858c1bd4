/**
 * `CLDFForm`, the record the form importer fills and the dataset queries
 * read. It carries the importer's field set (a list of parameter ids) and,
 * because the dataset's queries and constructor use them, the single
 * `paramID`, `iso` and `concepticon` fields of the query-side form.
 */
module FormRecord {
  import opened Wrappers

  datatype Form = Form(
    id: int,                          // dense id assigned by the importer
    langID: string,                   // Language_ID
    paramIDs: seq<string>,            // Parameter_IDs
    form: string,
    origValue: string,                // Value
    comment: string,
    orthography: string,
    properties: map<string, string>,  // unmodelled columns, by header text
    segments: Option<seq<string>>,    // None until `setSegments`
    paramID: string,                  // the single parameter id the queries compare
    iso: string,
    concepticon: string)

  /** A new form: id -1, no parameter ids, no properties, no segments, empty strings elsewhere. */
  predicate IsNew(f: Form) {
    && f.id == -1 && f.langID == "" && f.paramIDs == [] && f.form == ""
    && f.origValue == "" && f.comment == "" && f.orthography == ""
    && f.properties == map[] && f.segments.None?
    && f.paramID == "" && f.iso == "" && f.concepticon == ""
  }

  /** A freshly constructed form. */
  function NewForm(): (r: Form)
    ensures IsNew(r)
  {
    Form(-1, "", [], "", "", "", "", map[], None, "", "", "")
  }

  function SetSegments(f: Form, segments: seq<string>): (r: Form)
    ensures r.segments == Some(segments)
    ensures r.(segments := f.segments) == f
  {
    f.(segments := Some(segments))
  }

  function SetOrthography(f: Form, orthography: string): (r: Form)
    ensures r.orthography == orthography
    ensures r.(orthography := f.orthography) == f
  {
    f.(orthography := orthography)
  }

  function SetProperties(f: Form, properties: map<string, string>): (r: Form)
    ensures r.properties == properties
    ensures r.(properties := f.properties) == f
  {
    f.(properties := properties)
  }

  function SetId(f: Form, id: int): (r: Form)
    ensures r.id == id
    ensures r.(id := f.id) == f
  {
    f.(id := id)
  }

  function SetForm(f: Form, form: string): (r: Form)
    ensures r.form == form
    ensures r.(form := f.form) == f
  {
    f.(form := form)
  }

  function SetOrigValue(f: Form, origValue: string): (r: Form)
    ensures r.origValue == origValue
    ensures r.(origValue := f.origValue) == f
  {
    f.(origValue := origValue)
  }

  function SetComment(f: Form, comment: string): (r: Form)
    ensures r.comment == comment
    ensures r.(comment := f.comment) == f
  {
    f.(comment := comment)
  }

  function SetLangID(f: Form, langID: string): (r: Form)
    ensures r.langID == langID
    ensures r.(langID := f.langID) == f
  {
    f.(langID := langID)
  }

  function SetParamIDs(f: Form, paramIDs: seq<string>): (r: Form)
    ensures r.paramIDs == paramIDs
    ensures r.(paramIDs := f.paramIDs) == f
  {
    f.(paramIDs := paramIDs)
  }

  /** `addParamID`: the list grows by one at its end; the ids already there keep their places. */
  function AddParamID(f: Form, paramID: string): (r: Form)
    ensures |r.paramIDs| == |f.paramIDs| + 1
    ensures r.paramIDs[..|f.paramIDs|] == f.paramIDs
    ensures r.paramIDs[|f.paramIDs|] == paramID
    ensures r.(paramIDs := f.paramIDs) == f
  {
    f.(paramIDs := f.paramIDs + [paramID])
  }

  function SetIso(f: Form, iso: string): (r: Form)
    ensures r.iso == iso
    ensures r.(iso := f.iso) == f
  {
    f.(iso := iso)
  }

  function SetConcepticon(f: Form, concepticon: string): (r: Form)
    ensures r.concepticon == concepticon
    ensures r.(concepticon := f.concepticon) == f
  {
    f.(concepticon := concepticon)
  }
}
