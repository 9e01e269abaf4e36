// Message schemas and the values they type: what the code generator knows about a .msg file.
module Schema {
  import opened Bytes

  datatype Prim =
    | Bool | Byte | Char | Int8 | UInt8
    | Int16 | UInt16
    | Int32 | UInt32 | Float32
    | Int64 | UInt64 | Float64

  /** Second column of the generator's primitive table: the wire alignment. */
  function WireAlignment(p: Prim): (n: nat)
    ensures IsAlignment(n)
  {
    match p
    case Bool | Byte | Char | Int8 | UInt8 => 1
    case Int16 | UInt16 => 2
    case Int32 | UInt32 | Float32 => 4
    case Int64 | UInt64 | Float64 => 8
  }

  /** `sizeof` of the C++ type the generator maps the primitive to. */
  function SizeOf(p: Prim): (n: nat)
    ensures IsAlignment(n)
    ensures n == WireAlignment(p)
  {
    match p
    case Bool => 1
    case Byte | Char | UInt8 => 1
    case Int8 => 1
    case Int16 | UInt16 => 2
    case Int32 | UInt32 => 4
    case Float32 => 4
    case Int64 | UInt64 => 8
    case Float64 => 8
  }

  /** How often the element of a member occurs: `T`, `T[]` / `T[<=N]`, `T[N]`. */
  datatype Kind = Scalar | Sequence | Array(len: nat)

  datatype Elem = Primitive(prim: Prim) | Text | Nested(fields: Fields)

  datatype Fields = End | Field(kind: Kind, elem: Elem, rest: Fields)

  /** A primitive is its bit pattern, a string its octets, a member the list of its elements. */
  datatype Value = Bits(bits: nat) | Chars(chars: seq<byte>) | Struct(members: Members)

  datatype Members = Stop | Member(items: seq<Value>, rest: Members)

  predicate CountFits(kind: Kind, n: nat) {
    match kind
    case Scalar => n == 1
    case Sequence => true
    case Array(len) => n == len
  }

  /** What the C++ type system guarantees of a value of the generated struct. */
  predicate TypedElem(e: Elem, v: Value)
    decreases e, 0
  {
    match (e, v)
    case (Primitive(p), Bits(b)) => b < Pow256(SizeOf(p)) && (p == Bool ==> b < 2)
    case (Text, Chars(_)) => true
    case (Nested(fs), Struct(ms)) => TypedFields(fs, ms)
    case _ => false
  }

  predicate TypedAll(e: Elem, vs: seq<Value>)
    decreases e, 1
  {
    forall i | 0 <= i < |vs| :: TypedElem(e, vs[i])
  }

  predicate TypedFields(fs: Fields, ms: Members)
    decreases fs, 0
  {
    match (fs, ms)
    case (End, Stop) => true
    case (Field(k, e, rest), Member(items, tail)) =>
      CountFits(k, |items|) && TypedAll(e, items) && TypedFields(rest, tail)
    case _ => false
  }

  /** The lengths that are cast to uint32 on the wire survive the cast. */
  predicate FitsElem(e: Elem, v: Value)
    decreases e, 0
  {
    match (e, v)
    case (Text, Chars(s)) => |s| + 1 < U32_LIMIT
    case (Nested(fs), Struct(ms)) => FitsFields(fs, ms)
    case _ => true
  }

  predicate FitsAll(e: Elem, vs: seq<Value>)
    decreases e, 1
  {
    forall i | 0 <= i < |vs| :: FitsElem(e, vs[i])
  }

  predicate FitsFields(fs: Fields, ms: Members)
    decreases fs, 0
  {
    match (fs, ms)
    case (Field(k, e, rest), Member(items, tail)) =>
      (k.Sequence? ==> |items| < U32_LIMIT) && FitsAll(e, items) && FitsFields(rest, tail)
    case _ => true
  }

  /** A value the generated struct can hold, with lengths the wire can carry. */
  predicate WellFormed(fs: Fields, ms: Members) {
    TypedFields(fs, ms) && FitsFields(fs, ms)
  }
}
