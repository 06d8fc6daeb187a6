/**
 * The table definitions: each table's name, the columns its identifier
 * addresses (`idColumnName`), the columns of its partition key
 * (`pkColumnName`), and how an identifier is decoded into one value per
 * identifier column (`idColumnValue`), including the edge table's direction
 * normalisation.
 */
module Tables {
  import opened Keys
  import opened Values

  datatype Table =
    | VertexLabelTable | EdgeLabelTable | PropertyKeyTable | IndexLabelTable
    | VertexTable | EdgeTable | SecondaryIndexTable | SearchIndexTable
  {
    function Name(): string {
      match this
      case VertexLabelTable => "vertex_labels"
      case EdgeLabelTable => "edge_labels"
      case PropertyKeyTable => "property_keys"
      case IndexLabelTable => "index_labels"
      case VertexTable => "vertices"
      case EdgeTable => "edges"
      case SecondaryIndexTable => "secondary_indexes"
      case SearchIndexTable => "search_indexes"
    }

    /** `idColumnName`: the columns an identifier binds, in order; never empty. */
    function IdColumns(): (cols: seq<Key>)
      ensures |cols| > 0
    {
      match this
      case VertexTable => [Key.Id]
      case EdgeTable => EdgeKeys
      case SecondaryIndexTable => [FieldValues, IndexLabelName]
      case SearchIndexTable => [IndexLabelName, FieldValues]
      case _ => [Key.Name]
    }

    /** `pkColumnName`: the partition key columns, which a token range is taken over. */
    function PkColumns(): seq<Key> {
      match this
      case EdgeTable => [OwnerVertex]
      case _ => IdColumns()
    }

    /** `idColumnValue(id)`: the edge table's decoding, or the id's string form. */
    function IdColumnValue(id: Id): (parts: seq<string>)
      ensures |parts| > 0
    {
      match this
      case EdgeTable => EdgeIdParts(id, Out)
      case _ => [AsString(id)]
    }

    predicate IsIndex() {
      SecondaryIndexTable? || SearchIndexTable?
    }
  }

  /** The five columns an edge row is keyed by. */
  const EdgeKeys: seq<Key> := [OwnerVertex, Key.Direction, Label, SortValues, OtherVertex]

  /**
   * `Edge.idColumnValue(id, dir)` as a value: a four-part id (owner, label,
   * sort values, other) gains the direction's name at index 1, with owner and
   * other swapped first for `In`; an id of any other length is kept.
   */
  function EdgeIdParts(parts: seq<string>, dir: Direction): seq<string> {
    if |parts| == 4 then
      var p := if dir == In then [parts[3], parts[1], parts[2], parts[0]] else parts;
      [p[0], dir.Name()] + p[1..]
    else
      parts
  }

  /** `Edge.idColumnValue`: split the id into an array, swap in place, insert the direction. */
  method EdgeIdColumnValue(id: Id, dir: Direction) returns (parts: seq<string>)
    ensures parts == EdgeIdParts(id, dir)
  {
    var idParts := new string[|id|](i requires 0 <= i < |id| => id[i]);
    if idParts.Length == 4 {
      if dir == In {
        var tmp := idParts[0];
        idParts[0] := idParts[3];
        idParts[3] := tmp;
      }
      var list := idParts[..];
      parts := list[..1] + [dir.Name()] + list[1..];
      return;
    }
    parts := idParts[..];
  }

  /** `idColumnValue(id)` as the table's overriding method computes it. */
  method DecodeId(t: Table, id: Id) returns (parts: seq<string>)
    ensures parts == t.IdColumnValue(id)
  {
    if t.EdgeTable? {
      parts := EdgeIdColumnValue(id, Out);
    } else {
      parts := [AsString(id)];
    }
  }

  /**
   * A four-part id becomes the five values of the edge key: the direction's
   * name at index 1, label and sort values kept, owner and other vertex
   * swapped exactly when the direction is `In`.
   */
  lemma EdgeIdFourParts(parts: seq<string>, dir: Direction)
    requires |parts| == 4
    ensures var r := EdgeIdParts(parts, dir);
      && |r| == 5 && |r| == |EdgeKeys|
      && r[1] == dir.Name()
      && r[2] == parts[1] && r[3] == parts[2]
      && r[0] == (if dir == In then parts[3] else parts[0])
      && r[4] == (if dir == In then parts[0] else parts[3])
  {
  }

  /** An id that does not have four parts is decoded unchanged, whatever the direction. */
  lemma EdgeIdOtherLengths(parts: seq<string>, dir: Direction, dir': Direction)
    requires |parts| != 4
    ensures EdgeIdParts(parts, dir) == parts == EdgeIdParts(parts, dir')
  {
  }

  /**
   * An incoming lookup of a four-part id finds the row an outgoing lookup of
   * the swapped id finds, apart from the direction token.
   */
  lemma EdgeIdInIsSwappedOut(parts: seq<string>)
    requires |parts| == 4
    ensures EdgeIdParts(parts, In)
         == EdgeIdParts([parts[3], parts[1], parts[2], parts[0]], Out)[1 := "IN"]
  {
  }

  /** A one-part id on a single-column table decodes to its own part: decode then re-encode is the identity. */
  lemma SingleColumnRoundTrip(t: Table, s: string)
    requires !t.EdgeTable?
    ensures t.IdColumnValue(IdOf(s)) == [s]
    ensures IdOf(t.IdColumnValue(IdOf(s))[0]) == IdOf(s)
  {
  }
}
