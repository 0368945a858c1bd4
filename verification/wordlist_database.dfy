/**
 * `CLDFWordlistDatabase`: the imported tables, the constructor that fills
 * in each form's ISO code and concept-registry gloss, and the read-only
 * queries over the tables.
 *
 * Queries that walk `idToForm.values()` or `langIDToLang.values()` take
 * the iteration order as an explicit key sequence (`HashOrder.Enumerates`);
 * what they promise is stated for every such order, and their results are
 * shown to agree as multisets across orders.
 */
module WordlistDatabase {
  import opened Wrappers
  import opened HashOrder
  import opened ImportCommon
  import opened FormRecord
  import opened LanguageRecord
  import opened ParameterRecord
  import opened CognateJudgementRecord
  import opened CognateSetRecord

  /**
   * The database object. Judgements are keyed by their dense id and cognate
   * sets by their id text, as the importer fills them; `newToOld` is the
   * importer's dense-to-external form id map, and `exceptions` the list it
   * hands over with `setExceptions`. `currentPath` is null (`None`) until set.
   */
  datatype Database = Database(
    forms: map<int, Form>,
    languages: map<string, Language>,
    parameters: map<string, Parameter>,
    judgements: map<int, Judgement>,
    cognateSets: map<string, CognateSet>,
    newToOld: map<int, string>,
    currentPath: Option<string>,
    exceptions: seq<ExceptionEntry>)

  /** The database `loadDatabase` falls back to when no import succeeded: every table empty. */
  function EmptyDatabase(exceptions: seq<ExceptionEntry>): (db: Database)
    ensures db.forms == map[] && db.languages == map[] && db.parameters == map[]
    ensures db.judgements == map[] && db.cognateSets == map[] && db.newToOld == map[]
    ensures db.currentPath.None? && db.exceptions == exceptions
  {
    Database(map[], map[], map[], map[], map[], map[], None, exceptions)
  }

  // ---------------------------------------------------------------------
  // Stream filters
  // ---------------------------------------------------------------------

  function LangOf(f: Form): string { f.langID }
  function ParamOf(f: Form): string { f.paramID }
  function LanguageIdOf(l: Language): string { l.langID }
  function ParameterIdOf(p: Parameter): string { p.paramID }

  /**
   * `stream().filter(x -> wanted contains key(x))`: the elements whose key
   * is wanted, in their original order.
   */
  function Where<V(!new)>(vs: seq<V>, key: V -> string, wanted: set<string>): (r: seq<V>)
    ensures |r| <= |vs|
    ensures forall v :: v in r <==> v in vs && key(v) in wanted
    decreases |vs|
  {
    if |vs| == 0 then []
    else
      var last := vs[|vs| - 1];
      Where(vs[..|vs| - 1], key, wanted) + (if key(last) in wanted then [last] else [])
  }

  /** The filter keeps every copy of a wanted element and no copy of any other. */
  lemma {:induction false} WhereCount<V(!new)>(vs: seq<V>, key: V -> string, wanted: set<string>, v: V)
    ensures multiset(Where(vs, key, wanted))[v] == if key(v) in wanted then multiset(vs)[v] else 0
    decreases |vs|
  {
    if |vs| > 0 {
      var init, last := vs[..|vs| - 1], vs[|vs| - 1];
      assert vs == init + [last];
      WhereCount(init, key, wanted, v);
    }
  }

  /** Filtering a permutation gives a permutation of the filtered elements. */
  lemma WherePermutation<V(!new)>(vs1: seq<V>, vs2: seq<V>, key: V -> string, wanted: set<string>)
    requires multiset(vs1) == multiset(vs2)
    ensures multiset(Where(vs1, key, wanted)) == multiset(Where(vs2, key, wanted))
  {
    forall v
      ensures multiset(Where(vs1, key, wanted))[v] == multiset(Where(vs2, key, wanted))[v]
    {
      WhereCount(vs1, key, wanted, v);
      WhereCount(vs2, key, wanted, v);
    }
  }

  /** Filtering on a stronger condition keeps a sub-multiset. */
  lemma WhereNarrower<V(!new)>(vs: seq<V>, key1: V -> string, wanted1: set<string>, key2: V -> string, wanted2: set<string>)
    requires forall v :: v in vs && key1(v) in wanted1 ==> key2(v) in wanted2
    ensures multiset(Where(vs, key1, wanted1)) <= multiset(Where(vs, key2, wanted2))
  {
    forall v
      ensures multiset(Where(vs, key1, wanted1))[v] <= multiset(Where(vs, key2, wanted2))[v]
    {
      WhereCount(vs, key1, wanted1, v);
      WhereCount(vs, key2, wanted2, v);
    }
  }

  lemma WhereSub<V(!new)>(vs: seq<V>, key: V -> string, wanted: set<string>)
    ensures multiset(Where(vs, key, wanted)) <= multiset(vs)
  {
    forall v
      ensures multiset(Where(vs, key, wanted))[v] <= multiset(vs)[v]
    {
      WhereCount(vs, key, wanted, v);
    }
  }

  /** A map whose every value carries its own key. */
  predicate Keyed<V>(m: map<string, V>, key: V -> string) {
    forall k :: k in m ==> key(m[k]) == k
  }

  /**
   * Over a map whose values carry their keys, filtering the values on one
   * id finds the value stored under that id, once, and nothing else.
   */
  lemma {:induction false} KeyedWhereSome<V(!new)>(m: map<string, V>, key: V -> string, order: seq<string>, ks: set<string>, id: string)
    requires Keyed(m, key) && ks <= m.Keys
    requires Enumerates(order, ks)
    ensures forall k :: k in order ==> k in m
    ensures Where(Values(m, order), key, {id}) == if id in ks then [m[id]] else []
    decreases |order|
  {
    EnumeratesMembers(order, ks);
    if |order| > 0 {
      var init, last := order[..|order| - 1], order[|order| - 1];
      assert order == init + [last];
      assert multiset(init) == multiset(ks - {last}) by {
        assert ks == (ks - {last}) + {last};
        assert multiset(ks) == multiset(ks - {last}) + multiset{last};
        Cancel(multiset(init), multiset(ks - {last}), last);
      }
      KeyedWhereSome(m, key, init, ks - {last}, id);
      ValuesAppend(m, init, [last]);
      assert Values(m, order)[..|order| - 1] == Values(m, init);
    }
  }

  lemma KeyedWhere<V(!new)>(m: map<string, V>, key: V -> string, order: seq<string>, id: string)
    requires Keyed(m, key) && Enumerates(order, m.Keys)
    ensures forall k :: k in order ==> k in m
    ensures Where(Values(m, order), key, {id}) == if id in m then [m[id]] else []
  {
    KeyedWhereSome(m, key, order, m.Keys, id);
  }

  /** `stream().filter(x -> key(x).equals(id)).findFirst()`. */
  function FindFirst<V(!new)>(vs: seq<V>, key: V -> string, id: string): (r: Option<V>)
    ensures r.Some? <==> exists i :: 0 <= i < |vs| && key(vs[i]) == id
    ensures r.Some? ==> r.value in vs && key(r.value) == id
  {
    var hits := Where(vs, key, {id});
    if |hits| == 0 then None
    else
      assert hits[0] in hits;
      Some(hits[0])
  }

  // ---------------------------------------------------------------------
  // Constructor
  // ---------------------------------------------------------------------

  /** Some value of `m` carries the id `id`. */
  predicate Has<V>(m: map<string, V>, key: V -> string, id: string) {
    exists k :: k in m && key(m[k]) == id
  }

  /** What `findFirst` finds along an iteration of a map's values is a value of the map carrying the id. */
  lemma FindFirstInMap<V(!new)>(m: map<string, V>, key: V -> string, order: seq<string>, id: string)
    requires Enumerates(order, m.Keys)
    ensures forall k :: k in order ==> k in m
    ensures var r := FindFirst(Values(m, order), key, id);
            && (r.Some? <==> Has(m, key, id))
            && (r.Some? ==> exists k :: k in m && m[k] == r.value && key(m[k]) == id)
  {
    EnumeratesMembers(order, m.Keys);
    var vs := Values(m, order);
    if Has(m, key, id) {
      var k :| k in m && key(m[k]) == id;
      var i :| 0 <= i < |order| && order[i] == k;
      assert key(vs[i]) == id;
    }
    var r := FindFirst(vs, key, id);
    if r.Some? {
      var i :| 0 <= i < |vs| && vs[i] == r.value;
      assert m[order[i]] == r.value;
    }
  }

  /** Some language carries this id. */
  predicate HasLanguage(languages: map<string, Language>, langID: string) {
    Has(languages, LanguageIdOf, langID)
  }

  /** Some parameter carries this id. */
  predicate HasParameter(parameters: map<string, Parameter>, paramID: string) {
    Has(parameters, ParameterIdOf, paramID)
  }

  /** The gloss the constructor stores: the parameter's `concepticon_proposed` property, or "" when it has none. */
  function ProposedGloss(p: Parameter): (g: string)
    ensures "concepticon_proposed" in p.properties ==> g == p.properties["concepticon_proposed"]
    ensures "concepticon_proposed" !in p.properties ==> g == ""
  {
    Lookup(p.properties, "concepticon_proposed").GetOr("")
  }

  /** `iso` is the ISO code of some language carrying `langID`. */
  ghost predicate IsoOf(languages: map<string, Language>, langID: string, iso: string) {
    exists k :: k in languages && languages[k].langID == langID && languages[k].iso == iso
  }

  /** `gloss` is the proposed gloss of some parameter carrying `paramID`. */
  ghost predicate GlossOf(parameters: map<string, Parameter>, paramID: string, gloss: string) {
    exists k :: k in parameters && parameters[k].paramID == paramID && ProposedGloss(parameters[k]) == gloss
  }

  /** `form` is `original` with its ISO code and gloss taken from a language and a parameter it refers to. */
  ghost predicate Filled(original: Form, form: Form, languages: map<string, Language>, parameters: map<string, Parameter>) {
    && form == original.(iso := form.iso, concepticon := form.concepticon)
    && IsoOf(languages, original.langID, form.iso)
    && GlossOf(parameters, original.paramID, form.concepticon)
  }

  /**
   * One iteration of `fillAdditionalInfoOnForms`: the form with the ISO
   * code of the first language value carrying its language id and the
   * gloss of the first parameter value carrying its parameter id, along the
   * iterations `langOrder` and `paramOrder`; `None` where either
   * `findFirst().get()` finds nothing and throws.
   */
  function Fill(f: Form, languages: map<string, Language>, langOrder: seq<string>,
                parameters: map<string, Parameter>, paramOrder: seq<string>): (r: Option<Form>)
    requires Enumerates(langOrder, languages.Keys) && Enumerates(paramOrder, parameters.Keys)
    ensures r.Some? <==> HasLanguage(languages, f.langID) && HasParameter(parameters, f.paramID)
    ensures r.Some? ==> r.value == f.(iso := r.value.iso, concepticon := r.value.concepticon)
  {
    FindFirstInMap(languages, LanguageIdOf, langOrder, f.langID);
    FindFirstInMap(parameters, ParameterIdOf, paramOrder, f.paramID);
    match FindFirst(Values(languages, langOrder), LanguageIdOf, f.langID)
    case None => None
    case Some(l) =>
      match FindFirst(Values(parameters, paramOrder), ParameterIdOf, f.paramID)
      case None => None
      case Some(p) => Some(f.(iso := l.iso, concepticon := ProposedGloss(p)))
  }

  /** The loop of `fillAdditionalInfoOnForms` over every form; `None` when some iteration throws. */
  function FillAll(forms: map<int, Form>, languages: map<string, Language>, langOrder: seq<string>,
                   parameters: map<string, Parameter>, paramOrder: seq<string>): (r: Option<map<int, Form>>)
    requires Enumerates(langOrder, languages.Keys) && Enumerates(paramOrder, parameters.Keys)
    ensures r.Some? <==> forall k :: k in forms ==>
                           HasLanguage(languages, forms[k].langID) && HasParameter(parameters, forms[k].paramID)
    ensures r.Some? ==> forall k :: k in r.value <==> k in forms
  {
    if forall k :: k in forms ==> Fill(forms[k], languages, langOrder, parameters, paramOrder).Some? then
      Some(map k | k in forms :: Fill(forms[k], languages, langOrder, parameters, paramOrder).value)
    else None
  }

  /** The ISO code and the gloss `Fill` stores come from a language and a parameter the form refers to. */
  lemma FillFilled(f: Form, languages: map<string, Language>, langOrder: seq<string>,
                   parameters: map<string, Parameter>, paramOrder: seq<string>)
    requires Enumerates(langOrder, languages.Keys) && Enumerates(paramOrder, parameters.Keys)
    ensures var r := Fill(f, languages, langOrder, parameters, paramOrder);
            r.Some? ==> Filled(f, r.value, languages, parameters)
  {
    FindFirstInMap(languages, LanguageIdOf, langOrder, f.langID);
    FindFirstInMap(parameters, ParameterIdOf, paramOrder, f.paramID);
  }

  lemma FillAllFilled(forms: map<int, Form>, languages: map<string, Language>, langOrder: seq<string>,
                      parameters: map<string, Parameter>, paramOrder: seq<string>)
    requires Enumerates(langOrder, languages.Keys) && Enumerates(paramOrder, parameters.Keys)
    ensures var r := FillAll(forms, languages, langOrder, parameters, paramOrder);
            r.Some? ==> forall k :: k in forms ==> Filled(forms[k], r.value[k], languages, parameters)
  {
    var r := FillAll(forms, languages, langOrder, parameters, paramOrder);
    if r.Some? {
      forall k | k in forms
        ensures Filled(forms[k], r.value[k], languages, parameters)
      {
        FillFilled(forms[k], languages, langOrder, parameters, paramOrder);
        assert r.value[k] == Fill(forms[k], languages, langOrder, parameters, paramOrder).value;
      }
    }
  }

  /**
   * The six-argument constructor, which runs `fillAdditionalInfoOnForms`
   * over the language and parameter values in the iteration orders
   * `langOrder` and `paramOrder`. `None` when some form's language or
   * parameter is missing and the constructor throws
   * `NoSuchElementException`.
   */
  function NewDatabase(forms: map<int, Form>, languages: map<string, Language>, langOrder: seq<string>,
                       parameters: map<string, Parameter>, paramOrder: seq<string>,
                       judgements: map<int, Judgement>, cognateSets: map<string, CognateSet>,
                       newToOld: map<int, string>): (r: Option<Database>)
    requires Enumerates(langOrder, languages.Keys) && Enumerates(paramOrder, parameters.Keys)
    ensures r.Some? <==> forall k :: k in forms ==>
                           HasLanguage(languages, forms[k].langID) && HasParameter(parameters, forms[k].paramID)
    ensures r.Some? ==> forall k :: k in r.value.forms <==> k in forms
    ensures r.Some? ==> forall k :: k in forms ==> Filled(forms[k], r.value.forms[k], languages, parameters)
    ensures r.Some? ==> && r.value.languages == languages && r.value.parameters == parameters
                        && r.value.judgements == judgements && r.value.cognateSets == cognateSets
                        && r.value.newToOld == newToOld
                        && r.value.currentPath.None? && r.value.exceptions == []
  {
    FillAllFilled(forms, languages, langOrder, parameters, paramOrder);
    match FillAll(forms, languages, langOrder, parameters, paramOrder)
    case None => None
    case Some(filled) => Some(Database(filled, languages, parameters, judgements, cognateSets, newToOld, None, []))
  }

  /** Over a map whose values carry their keys, `findFirst` is a key lookup, whatever the iteration. */
  lemma KeyedFindFirst<V(!new)>(m: map<string, V>, key: V -> string, order: seq<string>, id: string)
    requires Keyed(m, key) && Enumerates(order, m.Keys)
    ensures forall k :: k in order ==> k in m
    ensures FindFirst(Values(m, order), key, id) == Lookup(m, id)
  {
    KeyedWhere(m, key, order, id);
  }

  /**
   * When every language and parameter is stored under its own id (as the
   * importers store them), filling a form is two key lookups, whatever
   * the iterations.
   */
  lemma FillKeyed(f: Form, languages: map<string, Language>, langOrder: seq<string>,
                  parameters: map<string, Parameter>, paramOrder: seq<string>)
    requires Keyed(languages, LanguageIdOf) && Keyed(parameters, ParameterIdOf)
    requires Enumerates(langOrder, languages.Keys) && Enumerates(paramOrder, parameters.Keys)
    ensures Fill(f, languages, langOrder, parameters, paramOrder) == FillOne(f, languages, parameters)
  {
    KeyedFindFirst(languages, LanguageIdOf, langOrder, f.langID);
    KeyedFindFirst(parameters, ParameterIdOf, paramOrder, f.paramID);
  }

  /** One form filled by key lookups: the language and the parameter stored under the ids the form carries. */
  function FillOne(f: Form, languages: map<string, Language>, parameters: map<string, Parameter>): (r: Option<Form>)
    ensures r.Some? <==> f.langID in languages && f.paramID in parameters
  {
    if f.langID in languages && f.paramID in parameters
    then Some(f.(iso := languages[f.langID].iso, concepticon := ProposedGloss(parameters[f.paramID])))
    else None
  }

  /** The constructor's loop read as key lookups. */
  function FillByKey(forms: map<int, Form>, languages: map<string, Language>, parameters: map<string, Parameter>)
    : (r: Option<map<int, Form>>)
    ensures r.Some? <==> forall k :: k in forms ==> forms[k].langID in languages && forms[k].paramID in parameters
  {
    if forall k :: k in forms ==> FillOne(forms[k], languages, parameters).Some? then
      Some(map k | k in forms :: FillOne(forms[k], languages, parameters).value)
    else None
  }

  /**
   * With every language and parameter stored under its own id (as the
   * importers store them), the constructor's loop is the key lookup of
   * `FillByKey`, whatever the iteration orders.
   */
  lemma FillAllKeyed(forms: map<int, Form>, languages: map<string, Language>, langOrder: seq<string>,
                     parameters: map<string, Parameter>, paramOrder: seq<string>)
    requires Keyed(languages, LanguageIdOf) && Keyed(parameters, ParameterIdOf)
    requires Enumerates(langOrder, languages.Keys) && Enumerates(paramOrder, parameters.Keys)
    ensures FillAll(forms, languages, langOrder, parameters, paramOrder) == FillByKey(forms, languages, parameters)
  {
    FillEachKeyed(forms, languages, langOrder, parameters, paramOrder);
    var r := FillAll(forms, languages, langOrder, parameters, paramOrder);
    var s := FillByKey(forms, languages, parameters);
    if r.Some? {
      assert forall k :: k in forms ==> r.value[k] == s.value[k];
      assert r.value == s.value;
    }
  }

  lemma FillEachKeyed(forms: map<int, Form>, languages: map<string, Language>, langOrder: seq<string>,
                      parameters: map<string, Parameter>, paramOrder: seq<string>)
    requires Keyed(languages, LanguageIdOf) && Keyed(parameters, ParameterIdOf)
    requires Enumerates(langOrder, languages.Keys) && Enumerates(paramOrder, parameters.Keys)
    ensures forall k :: k in forms ==>
              Fill(forms[k], languages, langOrder, parameters, paramOrder) == FillOne(forms[k], languages, parameters)
  {
    forall k | k in forms {
      FillKeyed(forms[k], languages, langOrder, parameters, paramOrder);
    }
  }

  /**
   * With every language and parameter stored under its own id, the
   * constructor succeeds exactly when every form's ids are keys, and takes
   * the ISO code and gloss from the records under those keys.
   */
  lemma NewDatabaseKeyed(forms: map<int, Form>, languages: map<string, Language>, langOrder: seq<string>,
                         parameters: map<string, Parameter>, paramOrder: seq<string>,
                         judgements: map<int, Judgement>, cognateSets: map<string, CognateSet>,
                         newToOld: map<int, string>)
    requires Keyed(languages, LanguageIdOf) && Keyed(parameters, ParameterIdOf)
    requires Enumerates(langOrder, languages.Keys) && Enumerates(paramOrder, parameters.Keys)
    ensures var r := NewDatabase(forms, languages, langOrder, parameters, paramOrder, judgements, cognateSets, newToOld);
            && (r.Some? <==> forall k :: k in forms ==> forms[k].langID in languages && forms[k].paramID in parameters)
            && (r.Some? ==> r.value.forms == FillByKey(forms, languages, parameters).value)
  {
    FillAllKeyed(forms, languages, langOrder, parameters, paramOrder);
    var r := NewDatabase(forms, languages, langOrder, parameters, paramOrder, judgements, cognateSets, newToOld);
    var filled := FillAll(forms, languages, langOrder, parameters, paramOrder);
    assert r.Some? == filled.Some?;
    if r.Some? {
      assert r.value.forms == filled.value;
    }
  }

  /** With every language and parameter stored under its own id, the iteration orders make no difference. */
  lemma NewDatabaseIgnoresOrder(forms: map<int, Form>, languages: map<string, Language>, langOrder: seq<string>,
                                parameters: map<string, Parameter>, paramOrder: seq<string>,
                                langOrder': seq<string>, paramOrder': seq<string>,
                                judgements: map<int, Judgement>, cognateSets: map<string, CognateSet>,
                                newToOld: map<int, string>)
    requires Keyed(languages, LanguageIdOf) && Keyed(parameters, ParameterIdOf)
    requires Enumerates(langOrder, languages.Keys) && Enumerates(paramOrder, parameters.Keys)
    requires Enumerates(langOrder', languages.Keys) && Enumerates(paramOrder', parameters.Keys)
    ensures NewDatabase(forms, languages, langOrder, parameters, paramOrder, judgements, cognateSets, newToOld)
            == NewDatabase(forms, languages, langOrder', parameters, paramOrder', judgements, cognateSets, newToOld)
  {
    FillAllKeyed(forms, languages, langOrder, parameters, paramOrder);
    FillAllKeyed(forms, languages, langOrder', parameters, paramOrder');
  }

  // ---------------------------------------------------------------------
  // Accessors
  // ---------------------------------------------------------------------

  function SetCurrentPath(db: Database, path: string): (r: Database)
    ensures r.currentPath == Some(path)
    ensures r.(currentPath := db.currentPath) == db
  {
    db.(currentPath := Some(path))
  }

  function GetCurrentPath(db: Database): (r: Option<string>)
    ensures db.currentPath.Some? ==> r == Some(db.currentPath.value)
    ensures db.currentPath.None? ==> r.None?
  {
    db.currentPath
  }

  /** Setting the path and reading it back round-trips; setting it twice keeps the second. */
  lemma CurrentPathRoundTrip(db: Database, p: string, q: string)
    ensures GetCurrentPath(SetCurrentPath(db, p)) == Some(p)
    ensures SetCurrentPath(SetCurrentPath(db, p), q) == SetCurrentPath(db, q)
  {
  }

  /** `getLanguageObject`: the language under the id, or null. */
  function GetLanguageObject(db: Database, langID: string): (r: Option<Language>)
    ensures r.Some? <==> langID in db.languages
    ensures r.Some? ==> r.value == db.languages[langID]
  {
    Lookup(db.languages, langID)
  }

  /** `getAllLanguages`: every language value, each as often as it is stored. */
  method GetAllLanguages(db: Database) returns (ls: seq<Language>)
    ensures |ls| == |db.languages|
    ensures forall l :: l in ls <==> l in db.languages.Values
  {
    ls := ValuesOf(db.languages);
  }

  /** `getAllConcepts`. */
  method GetAllConcepts(db: Database) returns (ps: seq<Parameter>)
    ensures |ps| == |db.parameters|
    ensures forall p :: p in ps <==> p in db.parameters.Values
  {
    ps := ValuesOf(db.parameters);
  }

  /** `getAllForms`. */
  method GetAllForms(db: Database) returns (fs: seq<Form>)
    ensures |fs| == |db.forms|
    ensures forall f :: f in fs <==> f in db.forms.Values
  {
    fs := ValuesOf(db.forms);
  }

  /** `listLanguageIDs`: every language id, once each. */
  method ListLanguageIDs(db: Database) returns (ids: seq<string>)
    ensures |ids| == |db.languages|
    ensures forall id :: id in ids <==> id in db.languages
    ensures forall id :: multiset(ids)[id] <= 1
  {
    ids := Enumerate(db.languages.Keys);
    EnumeratesMembers(ids, db.languages.Keys);
  }

  /** `listParameterIDs`: every parameter id, once each. */
  method ListParameterIDs(db: Database) returns (ids: seq<string>)
    ensures |ids| == |db.parameters|
    ensures forall id :: id in ids <==> id in db.parameters
    ensures forall id :: multiset(ids)[id] <= 1
  {
    ids := Enumerate(db.parameters.Keys);
    EnumeratesMembers(ids, db.parameters.Keys);
  }

  /** `listLanguageISOs`: the ISO code of every language value, one entry per language. */
  method ListLanguageISOs(db: Database) returns (isos: seq<string>)
    ensures |isos| == |db.languages|
    ensures forall x :: x in isos <==> exists id :: id in db.languages && db.languages[id].iso == x
  {
    var order := Enumerate(db.languages.Keys);
    EnumeratesMembers(order, db.languages.Keys);
    isos := [];
    var i := 0;
    while i < |order|
      invariant 0 <= i <= |order|
      invariant |isos| == i
      invariant forall j :: 0 <= j < i ==> isos[j] == db.languages[order[j]].iso
    {
      isos := isos + [db.languages[order[i]].iso];
      i := i + 1;
    }
    forall x | exists id :: id in db.languages && db.languages[id].iso == x
      ensures x in isos
    {
      var id :| id in db.languages && db.languages[id].iso == x;
      var j :| 0 <= j < |order| && order[j] == id;
      assert isos[j] == x;
    }
  }

  // ---------------------------------------------------------------------
  // Form queries
  // ---------------------------------------------------------------------

  /** `idToForm.values()` along the key iteration `order`. */
  function FormValues(db: Database, order: seq<int>): (vs: seq<Form>)
    requires Enumerates(order, db.forms.Keys)
    ensures forall f :: f in vs <==> f in db.forms.Values
  {
    ValuesMembers(db.forms, order);
    Values(db.forms, order)
  }

  /** `getFormsForLanguage`. */
  function GetFormsForLanguage(db: Database, order: seq<int>, langID: string): (r: seq<Form>)
    requires Enumerates(order, db.forms.Keys)
    ensures forall f :: f in r <==> f in db.forms.Values && f.langID == langID
  {
    Where(FormValues(db, order), LangOf, {langID})
  }

  /** `getFormsForConcept`. */
  function GetFormsForConcept(db: Database, order: seq<int>, conceptID: string): (r: seq<Form>)
    requires Enumerates(order, db.forms.Keys)
    ensures forall f :: f in r <==> f in db.forms.Values && f.paramID == conceptID
  {
    Where(FormValues(db, order), ParamOf, {conceptID})
  }

  /** `getForms(langID, paramID)`: a filter on both ids at once. */
  function GetForms(db: Database, order: seq<int>, langID: string, paramID: string): (r: seq<Form>)
    requires Enumerates(order, db.forms.Keys)
    ensures forall f :: f in r <==> f in db.forms.Values && f.langID == langID && f.paramID == paramID
  {
    Where(Where(FormValues(db, order), LangOf, {langID}), ParamOf, {paramID})
  }

  /**
   * The forms matching a language and a concept are among the language's
   * forms and among the concept's forms, counting repetitions.
   */
  lemma GetFormsSubMultiset(db: Database, order: seq<int>, langID: string, paramID: string)
    requires Enumerates(order, db.forms.Keys)
    ensures multiset(GetForms(db, order, langID, paramID)) <= multiset(GetFormsForLanguage(db, order, langID))
    ensures multiset(GetForms(db, order, langID, paramID)) <= multiset(GetFormsForConcept(db, order, paramID))
  {
    var vs := FormValues(db, order);
    var byLang := Where(vs, LangOf, {langID});
    WhereSub(byLang, ParamOf, {paramID});
    forall f
      ensures multiset(GetForms(db, order, langID, paramID))[f] <= multiset(GetFormsForConcept(db, order, paramID))[f]
    {
      WhereCount(byLang, ParamOf, {paramID}, f);
      WhereCount(vs, LangOf, {langID}, f);
      WhereCount(vs, ParamOf, {paramID}, f);
    }
  }

  /** Whatever the iteration order of the form map, the queries return the same forms, as often. */
  lemma FormQueriesIgnoreOrder(db: Database, o1: seq<int>, o2: seq<int>, langID: string, paramID: string)
    requires Enumerates(o1, db.forms.Keys) && Enumerates(o2, db.forms.Keys)
    ensures multiset(GetFormsForLanguage(db, o1, langID)) == multiset(GetFormsForLanguage(db, o2, langID))
    ensures multiset(GetFormsForConcept(db, o1, paramID)) == multiset(GetFormsForConcept(db, o2, paramID))
    ensures multiset(GetForms(db, o1, langID, paramID)) == multiset(GetForms(db, o2, langID, paramID))
  {
    EnumerationsArePermutations(o1, o2, db.forms.Keys);
    EnumeratesMembers(o1, db.forms.Keys);
    ValuesPermutation(db.forms, o1, o2);
    var vs1, vs2 := FormValues(db, o1), FormValues(db, o2);
    WherePermutation(vs1, vs2, LangOf, {langID});
    WherePermutation(vs1, vs2, ParamOf, {paramID});
    WherePermutation(Where(vs1, LangOf, {langID}), Where(vs2, LangOf, {langID}), ParamOf, {paramID});
  }

  /** The concatenation, in list order, of one filter per listed id. */
  function PerId(vs: seq<Form>, key: Form -> string, ids: seq<string>): seq<Form>
    decreases |ids|
  {
    if |ids| == 0 then []
    else PerId(vs, key, ids[..|ids| - 1]) + Where(vs, key, {ids[|ids| - 1]})
  }

  lemma MulSucc(c: int, n: int)
    ensures (c + 1) * n == c * n + n
  {
  }

  /**
   * A form turns up in the concatenation once per occurrence of its id in
   * the list, times the number of its copies among the values.
   */
  lemma {:induction false} PerIdCount(vs: seq<Form>, key: Form -> string, ids: seq<string>, f: Form)
    ensures multiset(PerId(vs, key, ids))[f] == multiset(ids)[key(f)] * multiset(vs)[f]
    decreases |ids|
  {
    if |ids| > 0 {
      var init, last := ids[..|ids| - 1], ids[|ids| - 1];
      assert ids == init + [last];
      PerIdCount(vs, key, init, f);
      WhereCount(vs, key, {last}, f);
      var c, n := multiset(init)[key(f)], multiset(vs)[f];
      if key(f) == last {
        assert multiset(ids)[key(f)] == c + 1;
        MulSucc(c, n);
      } else {
        assert multiset(ids)[key(f)] == c;
      }
    }
  }

  /** A form is in the concatenation exactly when it is among the values and its id is listed. */
  lemma PerIdMembers(vs: seq<Form>, key: Form -> string, ids: seq<string>)
    ensures forall f :: multiset(PerId(vs, key, ids))[f] == multiset(ids)[key(f)] * multiset(vs)[f]
    ensures forall f :: f in PerId(vs, key, ids) <==> f in vs && key(f) in ids
  {
    forall f
      ensures multiset(PerId(vs, key, ids))[f] == multiset(ids)[key(f)] * multiset(vs)[f]
    {
      PerIdCount(vs, key, ids, f);
    }
    PerIdMembersOnly(vs, key, ids);
  }

  lemma PerIdMembersOnly(vs: seq<Form>, key: Form -> string, ids: seq<string>)
    ensures forall f :: f in PerId(vs, key, ids) <==> f in vs && key(f) in ids
  {
    forall f
      ensures f in PerId(vs, key, ids) <==> f in vs && key(f) in ids
    {
      PerIdMember(vs, key, ids, f);
    }
  }

  lemma PerIdMember(vs: seq<Form>, key: Form -> string, ids: seq<string>, f: Form)
    ensures f in PerId(vs, key, ids) <==> f in vs && key(f) in ids
  {
    var r := PerId(vs, key, ids);
    var c, n := multiset(ids)[key(f)], multiset(vs)[f];
    PerIdCount(vs, key, ids, f);
    assert f in r <==> multiset(r)[f] > 0;
    assert f in vs <==> n > 0;
    assert key(f) in ids <==> c > 0;
    assert c * n > 0 <==> c > 0 && n > 0;
  }

  /**
   * The loop of `getFormsForLanguages` and `getFormsForParam`: for each id
   * in the list, append the values whose key equals it.
   */
  method ForEachId(vs: seq<Form>, key: Form -> string, ids: seq<string>) returns (r: seq<Form>)
    ensures r == PerId(vs, key, ids)
    ensures forall f :: multiset(r)[f] == multiset(ids)[key(f)] * multiset(vs)[f]
    ensures forall f :: f in r <==> f in vs && key(f) in ids
  {
    r := [];
    var i := 0;
    while i < |ids|
      invariant 0 <= i <= |ids|
      invariant r == PerId(vs, key, ids[..i])
    {
      assert ids[..i + 1][..i] == ids[..i];
      r := r + Where(vs, key, {ids[i]});
      i := i + 1;
    }
    assert ids[..i] == ids;
    PerIdMembers(vs, key, ids);
  }

  /**
   * `getFormsForLanguages`: the language filters concatenated in list
   * order, so a language listed twice contributes its forms twice.
   */
  method GetFormsForLanguages(db: Database, order: seq<int>, langIDs: seq<string>) returns (r: seq<Form>)
    requires Enumerates(order, db.forms.Keys)
    ensures r == PerId(FormValues(db, order), LangOf, langIDs)
    ensures forall f :: multiset(r)[f] == multiset(langIDs)[f.langID] * multiset(FormValues(db, order))[f]
    ensures forall f :: f in r <==> f in db.forms.Values && f.langID in langIDs
  {
    r := ForEachId(FormValues(db, order), LangOf, langIDs);
  }

  /** `getFormsForParam`: the concept filters concatenated in list order. */
  method GetFormsForParam(db: Database, order: seq<int>, conceptIDs: seq<string>) returns (r: seq<Form>)
    requires Enumerates(order, db.forms.Keys)
    ensures r == PerId(FormValues(db, order), ParamOf, conceptIDs)
    ensures forall f :: multiset(r)[f] == multiset(conceptIDs)[f.paramID] * multiset(FormValues(db, order))[f]
    ensures forall f :: f in r <==> f in db.forms.Values && f.paramID in conceptIDs
  {
    r := ForEachId(FormValues(db, order), ParamOf, conceptIDs);
  }

  /** A list of one language id asks the same as `getFormsForLanguage`. */
  lemma SingleLanguageList(db: Database, order: seq<int>, langID: string)
    requires Enumerates(order, db.forms.Keys)
    ensures PerId(FormValues(db, order), LangOf, [langID]) == GetFormsForLanguage(db, order, langID)
  {
    assert [langID][..0] == [];
  }

  // ---------------------------------------------------------------------
  // Language queries
  // ---------------------------------------------------------------------

  /** `getLanguageObjects`: the language values carrying the id, along the iteration `order`. */
  function GetLanguageObjects(db: Database, order: seq<string>, langID: string): (r: seq<Language>)
    requires Enumerates(order, db.languages.Keys)
    ensures forall l :: l in r <==> l in db.languages.Values && l.langID == langID
  {
    ValuesMembers(db.languages, order);
    Where(Values(db.languages, order), LanguageIdOf, {langID})
  }

  /**
   * With every language stored under its own id, the list holds at most
   * the one language `getLanguageObject` returns.
   */
  lemma LanguageObjectsKeyed(db: Database, order: seq<string>, langID: string)
    requires Keyed(db.languages, LanguageIdOf) && Enumerates(order, db.languages.Keys)
    ensures GetLanguageObject(db, langID).None? ==> GetLanguageObjects(db, order, langID) == []
    ensures GetLanguageObject(db, langID).Some? ==>
              GetLanguageObjects(db, order, langID) == [GetLanguageObject(db, langID).value]
  {
    KeyedWhere(db.languages, LanguageIdOf, order, langID);
  }

  // ---------------------------------------------------------------------
  // Cognate sets
  // ---------------------------------------------------------------------

  /** The form a judgement refers to, or null when no form has that id. */
  function JudgedForm(db: Database, id: int): Option<Form>
    requires id in db.judgements
  {
    Lookup(db.forms, db.judgements[id].formReference)
  }

  /** Some judgement among `ids` refers to cognate set `c`. */
  ghost predicate Refers(db: Database, ids: set<int>, c: string)
    requires ids <= db.judgements.Keys
  {
    exists id :: id in ids && db.judgements[id].cognatesetReference == c
  }

  /** Some judgement among `ids` puts `x` into cognate set `c`. */
  ghost predicate Contributes(db: Database, ids: set<int>, c: string, x: Option<Form>)
    requires ids <= db.judgements.Keys
  {
    exists id :: id in ids && db.judgements[id].cognatesetReference == c && JudgedForm(db, id) == x
  }

  /** The grouping built from the judgements `ids`. */
  ghost predicate Groups(db: Database, ids: set<int>, sets: map<string, set<Option<Form>>>)
    requires ids <= db.judgements.Keys
  {
    && (forall c :: c in sets <==> Refers(db, ids, c))
    && (forall id :: id in ids ==>
          db.judgements[id].cognatesetReference in sets
          && JudgedForm(db, id) in sets[db.judgements[id].cognatesetReference])
    && (forall c, x :: c in sets && x in sets[c] ==> Contributes(db, ids, c, x))
  }

  /**
   * `getCogsetToCognates`: cognate-set reference to the set of judged
   * forms, a null entry standing for a reference to a missing form. The
   * keys are exactly the references that occur, every judgement's form is
   * in its reference's set, and nothing else is.
   */
  method GetCogsetToCognates(db: Database) returns (sets: map<string, set<Option<Form>>>)
    ensures forall c :: c in sets <==> Refers(db, db.judgements.Keys, c)
    ensures forall id :: id in db.judgements ==>
              db.judgements[id].cognatesetReference in sets
              && JudgedForm(db, id) in sets[db.judgements[id].cognatesetReference]
    ensures forall c, x :: c in sets && x in sets[c] ==> Contributes(db, db.judgements.Keys, c, x)
  {
    var order := Enumerate(db.judgements.Keys);
    EnumeratesMembers(order, db.judgements.Keys);
    sets := map[];
    ghost var done: set<int> := {};
    var i := 0;
    while i < |order|
      invariant 0 <= i <= |order|
      invariant forall id :: id in done <==> id in order[..i]
      invariant done <= db.judgements.Keys
      invariant Groups(db, done, sets)
    {
      AddJudgementGroups(db, done, sets, order[i]);
      sets := AddJudgement(db, sets, order[i]);
      assert order[..i + 1] == order[..i] + [order[i]];
      done := done + {order[i]};
      i := i + 1;
    }
    assert order[..i] == order;
    assert done == db.judgements.Keys by {
      forall id
        ensures id in done <==> id in db.judgements
      {
        assert id in done <==> id in order;
      }
    }
  }

  /** One iteration: put the judged form into its reference's set, creating the set first if needed. */
  function AddJudgement(db: Database, sets: map<string, set<Option<Form>>>, id: int)
    : (r: map<string, set<Option<Form>>>)
    requires id in db.judgements
    ensures forall c :: c in r <==> c in sets || c == db.judgements[id].cognatesetReference
    ensures forall c :: c in sets && c != db.judgements[id].cognatesetReference ==> r[c] == sets[c]
    ensures var c := db.judgements[id].cognatesetReference;
            forall x :: x in r[c] <==> x == JudgedForm(db, id) || (c in sets && x in sets[c])
  {
    var c := db.judgements[id].cognatesetReference;
    sets[c := (if c in sets then sets[c] else {}) + {JudgedForm(db, id)}]
  }

  /** Adding one more judgement keeps the grouping exact. */
  lemma AddJudgementGroups(db: Database, done: set<int>, sets: map<string, set<Option<Form>>>, id: int)
    requires done <= db.judgements.Keys && id in db.judgements
    requires Groups(db, done, sets)
    ensures Groups(db, done + {id}, AddJudgement(db, sets, id))
  {
    var r := AddJudgement(db, sets, id);
    var c := db.judgements[id].cognatesetReference;
    assert forall c' :: c' in r <==> Refers(db, done + {id}, c') by {
      assert Refers(db, done + {id}, c);
      forall c' | Refers(db, done + {id}, c')
        ensures c' in r
      {
        var w :| w in done + {id} && db.judgements[w].cognatesetReference == c';
        if w != id {
          assert Refers(db, done, c');
        }
      }
    }
    forall c', x | c' in r && x in r[c']
      ensures Contributes(db, done + {id}, c', x)
    {
      if c' == c && x == JudgedForm(db, id) {
        assert id in done + {id};
      } else {
        assert Contributes(db, done, c', x);
        var w :| w in done && db.judgements[w].cognatesetReference == c' && JudgedForm(db, w) == x;
        assert w in done + {id};
      }
    }
  }
}
