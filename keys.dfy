/**
 * The column keys (HugeKeys) of the Cassandra tables and their textual form:
 * `formatKey` renders a key as its enum name, `parseKey` reads a column name
 * back (upper-casing it first, as Cassandra reports unquoted names in lower case).
 */
module Keys {
  import opened Wrappers

  /**
   * The HugeKeys constants that the tables use: the schema-catalog tables'
   * keys first, then those of the vertex, edge and index tables.
   */
  datatype Key =
    | IdStrategy | PrimaryKeys | NullableKeys | IndexNames
    | SourceLabel | TargetLabel | Frequency | SortKeys
    | DataType | Cardinality | BaseType | BaseValue | IndexType | Fields
    | Id | Name | Label | Properties
    | OwnerVertex | Direction | SortValues | OtherVertex
    | FieldValues | IndexLabelName | ElementIds

  /**
   * `formatKey`: the enum constant's name, a non-empty run of upper-case
   * letters and underscores.
   */
  function Format(k: Key): (r: string)
    ensures r != [] && UpperName(r)
  {
    CatalogNamesUpper();
    SchemaNamesUpper();
    ElementNamesUpper();
    IndexNamesUpper();
    match k
    case IdStrategy => "ID_STRATEGY"
    case PrimaryKeys => "PRIMARY_KEYS"
    case NullableKeys => "NULLABLE_KEYS"
    case IndexNames => "INDEX_NAMES"
    case SourceLabel => "SOURCE_LABEL"
    case TargetLabel => "TARGET_LABEL"
    case Frequency => "FREQUENCY"
    case SortKeys => "SORT_KEYS"
    case DataType => "DATA_TYPE"
    case Cardinality => "CARDINALITY"
    case BaseType => "BASE_TYPE"
    case BaseValue => "BASE_VALUE"
    case IndexType => "INDEX_TYPE"
    case Fields => "FIELDS"
    case Id => "ID"
    case Name => "NAME"
    case Label => "LABEL"
    case Properties => "PROPERTIES"
    case OwnerVertex => "OWNER_VERTEX"
    case Direction => "DIRECTION"
    case SortValues => "SORT_VALUES"
    case OtherVertex => "OTHER_VERTEX"
    case FieldValues => "FIELD_VALUES"
    case IndexLabelName => "INDEX_LABEL_NAME"
    case ElementIds => "ELEMENT_IDS"
  }

  const AllKeys: seq<Key> :=
    [IdStrategy, PrimaryKeys, NullableKeys, IndexNames, SourceLabel, TargetLabel,
     Frequency, SortKeys, DataType, Cardinality, BaseType, BaseValue, IndexType, Fields,
     Id, Name, Label, Properties, OwnerVertex, Direction, SortValues, OtherVertex,
     FieldValues, IndexLabelName, ElementIds]

  lemma AllKeysListed(k: Key)
    ensures k in AllKeys
  {
  }

  /** The first key of `ks` whose name is `name`. */
  function Find(name: string, ks: seq<Key>): (r: Option<Key>)
    ensures r.Some? ==> Format(r.value) == name && r.value in ks
    ensures r.None? ==> forall k :: k in ks ==> Format(k) != name
  {
    if ks == [] then None
    else if Format(ks[0]) == name then Some(ks[0])
    else Find(name, ks[1..])
  }

  /** No two keys share a name, so a formatted key identifies its key. */
  lemma FormatInjective(a: Key, b: Key)
    requires Format(a) == Format(b)
    ensures a == b
  {
    assert |Format(a)| == |Format(b)| && Format(a)[0] == Format(b)[0] && Format(a)[1] == Format(b)[1];
  }

  /** `HugeKeys.valueOf`: the key whose name is exactly `name`, if any. */
  function ValueOf(name: string): Option<Key> {
    Find(name, AllKeys)
  }

  /** `valueOf` finds a key exactly when the name is that key's name. */
  lemma ValueOfMeaning(name: string, k: Key)
    ensures ValueOf(name) == Some(k) <==> Format(k) == name
  {
    if Format(k) == name {
      AllKeysListed(k);
      FormatInjective(k, ValueOf(name).value);
    }
  }

  /** Upper-casing of one character; only ASCII letters are mapped. */
  function UpperChar(c: char): char {
    if 'a' <= c <= 'z' then (c as int - 32) as char else c
  }

  function LowerChar(c: char): char {
    if 'A' <= c <= 'Z' then (c as int + 32) as char else c
  }

  /** `String.toUpperCase` on ASCII text. */
  function ToUpper(s: string): (r: string)
    ensures |r| == |s|
    ensures forall i :: 0 <= i < |s| ==> r[i] == UpperChar(s[i])
  {
    seq(|s|, i requires 0 <= i < |s| => UpperChar(s[i]))
  }

  /** How Cassandra reports an unquoted column name: folded to lower case. */
  function ToLower(s: string): (r: string)
    ensures |r| == |s|
    ensures forall i :: 0 <= i < |s| ==> r[i] == LowerChar(s[i])
  {
    seq(|s|, i requires 0 <= i < |s| => LowerChar(s[i]))
  }

  /** `parseKey`: the key named by a column name, compared case-insensitively. */
  function ParseKey(name: string): (r: Option<Key>)
    ensures r.Some? ==> Format(r.value) == ToUpper(name)
    ensures r.None? ==> forall k: Key :: Format(k) != ToUpper(name)
  {
    assert forall k: Key :: k in AllKeys by {
      forall k: Key ensures k in AllKeys {
        AllKeysListed(k);
      }
    }
    ValueOf(ToUpper(name))
  }

  /** `parseKey` finds exactly the key whose name is the upper-cased column name. */
  lemma ParseKeyMeaning(name: string, k: Key)
    ensures ParseKey(name) == Some(k) <==> Format(k) == ToUpper(name)
  {
    ValueOfMeaning(ToUpper(name), k);
  }

  /** A key name is made of upper-case letters and underscores only. */
  predicate UpperName(s: string) {
    forall c :: c in s ==> ('A' <= c <= 'Z' || c == '_')
  }

  lemma CatalogNamesUpper()
    ensures UpperName("ID_STRATEGY") && UpperName("PRIMARY_KEYS") && UpperName("NULLABLE_KEYS")
    ensures UpperName("INDEX_NAMES") && UpperName("SOURCE_LABEL") && UpperName("TARGET_LABEL")
    ensures UpperName("FREQUENCY")
  {
  }

  lemma SchemaNamesUpper()
    ensures UpperName("SORT_KEYS") && UpperName("DATA_TYPE") && UpperName("CARDINALITY")
    ensures UpperName("BASE_TYPE") && UpperName("BASE_VALUE") && UpperName("INDEX_TYPE")
    ensures UpperName("FIELDS")
  {
  }

  lemma ElementNamesUpper()
    ensures UpperName("ID") && UpperName("NAME") && UpperName("LABEL") && UpperName("PROPERTIES")
    ensures UpperName("OWNER_VERTEX") && UpperName("DIRECTION")
  {
  }

  lemma IndexNamesUpper()
    ensures UpperName("SORT_VALUES") && UpperName("OTHER_VERTEX") && UpperName("FIELD_VALUES")
    ensures UpperName("INDEX_LABEL_NAME") && UpperName("ELEMENT_IDS")
  {
  }

  /** Upper-casing leaves a key name as it is. */
  lemma UpperOfUpperName(s: string)
    requires UpperName(s)
    ensures ToUpper(s) == s
  {
    forall i | 0 <= i < |s|
      ensures ToUpper(s)[i] == s[i]
    {
      assert s[i] in s;
    }
  }

  /** Upper-casing undoes the lower-casing of a key name. */
  lemma UpperOfLowered(s: string)
    requires UpperName(s)
    ensures ToUpper(ToLower(s)) == s
  {
    var u := ToUpper(ToLower(s));
    forall i | 0 <= i < |s|
      ensures u[i] == s[i]
    {
      assert s[i] in s;
    }
  }

  /** Reading back a key name, as written or as Cassandra reports it, gives the key. */
  lemma ParseFormatted(k: Key)
    ensures ParseKey(Format(k)) == Some(k)
    ensures ParseKey(ToLower(Format(k))) == Some(k)
  {
    var s := Format(k);
    ParseKeyMeaning(s, k);
    ParseKeyMeaning(ToLower(s), k);
    UpperOfUpperName(s);
    UpperOfLowered(s);
  }
}
