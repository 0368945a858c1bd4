/**
 * The schema side of `CLDFImport`: the column descriptors of one table
 * of the JSON metadata, and `createColumnPropertyMap`, which files every
 * column under a role.
 */
module Schema {
  import opened Wrappers
  import opened JavaStrings

  /** One entry of a table's `tableSchema.columns`: its `name` and optional `propertyUrl`. */
  datatype ColumnDesc = ColumnDesc(name: string, propertyUrl: Option<string>)

  /**
   * The role of a column: the second `#`-piece of its `propertyUrl` when
   * that text contains `#`, else the column name. `None` is the
   * `ArrayIndexOutOfBoundsException` of a `propertyUrl` whose split has a
   * single piece (one ending in `#`), which nothing catches.
   */
  function Role(c: ColumnDesc): (r: Option<string>)
    ensures c.propertyUrl.None? ==> r == Some(c.name)
    ensures c.propertyUrl.Some? && '#' !in c.propertyUrl.value ==> r == Some(c.name)
    ensures r.Some? && c.propertyUrl.Some? && '#' in c.propertyUrl.value ==> '#' !in r.value
  {
    if c.propertyUrl.None? || '#' !in c.propertyUrl.value then Some(c.name)
    else SecondPiece(c.propertyUrl.value, '#')
  }

  /** A URL `base#fragment` with a non-empty fragment names the role `fragment`. */
  lemma RoleOfFragment(name: string, base: string, fragment: string)
    requires '#' !in base && '#' !in fragment && fragment != ""
    ensures Role(ColumnDesc(name, Some(base + "#" + fragment))) == Some(fragment)
  {
    var url := base + "#" + fragment;
    assert url == base + ['#'] + fragment;
    assert '#' in url by {
      assert url[|base|] == '#';
    }
    SplitAllAtFirst(base, fragment, '#');
    assert SplitAll(fragment, '#') == [fragment];
    assert SplitAll(url, '#') == [base, fragment];
  }

  /** A URL that ends in `#` (or is `#` alone) makes the role lookup fail. */
  lemma RoleOfEmptyFragment(name: string, base: string)
    requires '#' !in base
    ensures Role(ColumnDesc(name, Some(base + "#"))) == None
  {
    var url := base + "#";
    assert url == base + ['#'] + "";
    assert '#' in url by {
      assert url[|base|] == '#';
    }
    SplitAllAtFirst(base, "", '#');
    assert SplitAll("", '#') == [""];
    assert SplitAll(url, '#') == [base, ""];
  }

  /** Every column's role can be computed. */
  predicate AllRolesDefined(columns: seq<ColumnDesc>) {
    forall k :: 0 <= k < |columns| ==> Role(columns[k]).Some?
  }

  /** The index of the last column with role `role`, or -1. */
  function LastWithRole(columns: seq<ColumnDesc>, role: string): (j: int)
    ensures -1 <= j < |columns|
    ensures j >= 0 ==> Role(columns[j]) == Some(role)
    ensures forall k :: j < k < |columns| ==> Role(columns[k]) != Some(role)
    decreases |columns|
  {
    if |columns| == 0 then -1
    else if Role(columns[|columns| - 1]) == Some(role) then |columns| - 1
    else LastWithRole(columns[..|columns| - 1], role)
  }

  /**
   * `createColumnPropertyMap`: role to column name, filled in column
   * order, so the last column with a role wins. `None` when some role
   * cannot be computed.
   */
  function CreateColumnPropertyMap(columns: seq<ColumnDesc>): (r: Option<map<string, string>>)
    ensures r.Some? <==> AllRolesDefined(columns)
    ensures r.Some? ==> forall role :: role in r.value <==> LastWithRole(columns, role) >= 0
    ensures r.Some? ==> forall role :: role in r.value ==> r.value[role] == columns[LastWithRole(columns, role)].name
    decreases |columns|
  {
    if |columns| == 0 then Some(map[])
    else
      var init := columns[..|columns| - 1];
      var last := columns[|columns| - 1];
      match CreateColumnPropertyMap(init)
      case None => None
      case Some(m) =>
        match Role(last)
        case None => None
        case Some(role) => Some(m[role := last.name])
  }
}
