/**
 * The values that travel between the graph layer and Cassandra: identifiers,
 * edge directions, and the column values held by entries and statements, with
 * the one place where they are normalised before reaching a statement
 * (`serializeValue`).
 */
module Values {

  /** The direction of an edge, as the graph layer names it. */
  datatype Direction = Out | In | Both {
    /** `Direction.name()`. */
    function Name(): string {
      match this
      case Out => "OUT"
      case In => "IN"
      case Both => "BOTH"
    }
  }

  /**
   * An identifier, given directly as the ordered string parts that splitting
   * it yields; splitting always yields at least one part.
   */
  type Id = parts: seq<string> | |parts| > 0 witness [""]

  /** The separator that splices the parts of an identifier into its string form. */
  const IdSeparator: char := '>'

  /** The parts joined with the separator (escaping is not modelled). */
  function Splice(parts: seq<string>): string
    decreases |parts|
  {
    if |parts| <= 1 then (if parts == [] then "" else parts[0])
    else parts[0] + [IdSeparator] + Splice(parts[1..])
  }

  /** `Id.asString()`. */
  function AsString(id: Id): string {
    Splice(id)
  }

  /** `IdGenerator.of(String)`: the identifier made of one string. */
  function IdOf(s: string): (id: Id)
    ensures |id| == 1 && AsString(id) == s
  {
    [s]
  }

  /** A single (non-collection) column value. */
  datatype Scalar =
    | Text(s: string)
    | Number(n: int)
    | IdRef(id: Id)
    | DirRef(dir: Direction)

  /** A column value: a scalar, or one of the collection shapes a column can hold. */
  datatype Value =
    | Single(x: Scalar)
    | ListOf(items: seq<Scalar>)
    | SetOf(elements: set<Scalar>)
    | MapOf(entries: map<Scalar, Scalar>)

  function TextValue(s: string): Value {
    Single(Text(s))
  }

  /** `serializeValue` on one scalar: an id becomes its string, a direction its name. */
  function SerializeScalar(x: Scalar): (r: Scalar)
    ensures !r.IdRef? && !r.DirRef?
    ensures x.IdRef? ==> r == Text(AsString(x.id))
    ensures x.DirRef? ==> r == Text(x.dir.Name())
    ensures !x.IdRef? && !x.DirRef? ==> r == x
  {
    match x
    case IdRef(id) => Text(AsString(id))
    case DirRef(d) => Text(d.Name())
    case _ => x
  }

  /**
   * `serializeValue`: an id or a direction is replaced by its text; every other
   * value, collections included, passes through unchanged.
   */
  function SerializeValue(v: Value): (r: Value)
    ensures v.Single? <==> r.Single?
    ensures v.Single? ==> r.x == SerializeScalar(v.x)
    ensures !v.Single? ==> r == v
  {
    match v
    case Single(x) => Single(SerializeScalar(x))
    case _ => v
  }

  /** Serialising twice is serialising once. */
  lemma SerializeIdempotent(v: Value)
    ensures SerializeValue(SerializeValue(v)) == SerializeValue(v)
  {
  }
}
