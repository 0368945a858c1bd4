/** `CLDFParameter`, the record the parameter importer fills. */
module ParameterRecord {

  datatype Parameter = Parameter(
    paramID: string,
    name: string,
    concepticonID: string,
    concepticon: string,
    semField: string,
    properties: map<string, string>)

  /** A new parameter: every string field empty and no properties. */
  predicate IsNew(p: Parameter) {
    && p.paramID == "" && p.name == "" && p.concepticonID == ""
    && p.concepticon == "" && p.semField == "" && p.properties == map[]
  }

  /** A freshly constructed parameter. */
  function NewParameter(): (r: Parameter)
    ensures IsNew(r)
  {
    Parameter("", "", "", "", "", map[])
  }

  /** `setSemanticField`; `getSemanticField` reads the same field back. */
  function SetSemanticField(p: Parameter, semField: string): (r: Parameter)
    ensures r.semField == semField
    ensures r.(semField := p.semField) == p
  {
    p.(semField := semField)
  }

  function SetConcepticon(p: Parameter, concepticon: string): (r: Parameter)
    ensures r.concepticon == concepticon
    ensures r.(concepticon := p.concepticon) == p
  {
    p.(concepticon := concepticon)
  }

  function SetProperties(p: Parameter, properties: map<string, string>): (r: Parameter)
    ensures r.properties == properties
    ensures r.(properties := p.properties) == p
  {
    p.(properties := properties)
  }

  function SetConcepticonID(p: Parameter, concepticonID: string): (r: Parameter)
    ensures r.concepticonID == concepticonID
    ensures r.(concepticonID := p.concepticonID) == p
  {
    p.(concepticonID := concepticonID)
  }

  function SetParamID(p: Parameter, paramID: string): (r: Parameter)
    ensures r.paramID == paramID
    ensures r.(paramID := p.paramID) == p
  {
    p.(paramID := paramID)
  }

  function SetName(p: Parameter, name: string): (r: Parameter)
    ensures r.name == name
    ensures r.(name := p.name) == p
  {
    p.(name := name)
  }

  /** The concept-registry id and the gloss are distinct fields: neither setter touches the other. */
  lemma ConcepticonFieldsDistinct(p: Parameter, concepticon: string, concepticonID: string)
    ensures SetConcepticon(p, concepticon).concepticonID == p.concepticonID
    ensures SetConcepticonID(p, concepticonID).concepticon == p.concepticon
    ensures SetConcepticonID(SetConcepticon(p, concepticon), concepticonID)
              == SetConcepticon(SetConcepticonID(p, concepticonID), concepticon)
  {
  }
}
