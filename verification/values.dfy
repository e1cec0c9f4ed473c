/** The XML-RPC value tree (xmlrpc/common.go), the errors the codec reports,
    and the host primitives the codec borrows from Go's libraries. */
module Values {

  /** A Go `int` of the compilers this package was written for: 32 bits. */
  const MinInt32: int := -0x8000_0000
  const MaxInt32: int := 0x7fff_ffff
  type int32 = x: int | MinInt32 <= x <= MaxInt32

  newtype byte = b: int | 0 <= b < 256

  /** The bit pattern of a Go `float`; its text form is a host primitive. */
  datatype Float = Float(bits: bv32)

  /** A `time.Time`; the codec never looks inside it. */
  datatype Time = Time(seconds: int, nanoseconds: int, zone: string)

  /** The error returned by the rpc server, carried as a value. */
  datatype Fault = Fault(faultCode: int32, faultString: string)

  /** Every implementation of the `ParamValue` interface, plus `Nil`: the Go
      nil interface value that struct decoding stores for a member that had
      no `<value>` child. */
  datatype ParamValue =
    | IntValue(i: int32)
    | BooleanValue(b: bool)
    | StringValue(s: string)
    | DoubleValue(d: Float)
    | DateTimeValue(t: Time)
    | Base64Value(bytes: seq<byte>)
    | StructValue(members: map<string, ParamValue>)
    | ArrayValue(elems: seq<ParamValue>)
    | FaultValue(fault: Fault)
    | Nil

  /** The kinds of error the codec and the envelope layer report (their
      text is not modelled). */
  datatype Error =
    | EndOfInput                        // the token source is exhausted
    | UnexpectedToken                   // readBody / struct member: wrong token kind
    | UnexpectedSymbol                  // parseMessage / fault: no start element
    | UnknownType(name: string)         // parseMessage: unlisted tag
    | BadInt(text: string)              // strconv.Atoi failed
    | BadBoolean(text: string)          // neither "0" nor "1"
    | BadDouble(text: string)           // float parse failed
    | DateNotImplemented
    | BadBase64(text: string)
    | InvalidFault
    | InvalidResponse
    | RemoteFault(code: int32, message: string)   // a well-formed fault response

  datatype Option<+T> = None | Some(value: T)

  datatype Result<+T> = Ok(value: T) | Err(error: Error) {
    predicate IsFailure() { Err? }
    function PropagateFailure<U>(): Result<U> requires Err? { Err(error) }
    function Extract(): T requires Ok? { value }
  }

  /** Library behaviour the codec relies on but does not define: text forms
      of floats (`%v` and `strconv.Atof`), base64 (`encoding/base64`), and
      the order in which Go's `range` visits the keys of a map. */
  datatype Host = Host(
    formatFloat: Float -> string,
    parseFloat: string -> Option<Float>,
    encodeBase64: seq<byte> -> string,
    decodeBase64: string -> Option<seq<byte>>,
    memberOrder: set<string> -> seq<string>)

  predicate NoDuplicates<T(==)>(s: seq<T>) {
    forall i, j | 0 <= i < j < |s| :: s[i] != s[j]
  }

  /** A Go `float` whose bits are a NaN: every exponent bit set and a
      mantissa that is not zero. `%v` prints all of them as `NaN`, so no
      parser can tell them apart again. */
  predicate IsNaN(d: Float) {
    ((d.bits >> 23) & 0xFF) == 0xFF && (d.bits & 0x7F_FFFF) != 0
  }

  /** A character XML allows in text, less the carriage return that an XML
      tokenizer turns into a line feed. */
  predicate XmlChar(c: char) {
    c == '\t' || c == '\n' || ('\U{20}' <= c <= '\U{D7FF}') || ('\U{E000}' <= c <= '\U{FFFD}') || '\U{10000}' <= c
  }

  /** Text that the writers, which copy text verbatim and escape nothing,
      can emit so that an XML tokenizer reports it back unchanged as
      character data: legal characters, no `<` (a tag would start), no `&`
      (an entity would be decoded) and no `]]>` (a syntax error). */
  predicate MarkupFree(s: string) {
    && (forall i | 0 <= i < |s| :: XmlChar(s[i]) && s[i] != '<' && s[i] != '&')
    && (forall i | 0 <= i < |s| - 2 :: !(s[i] == ']' && s[i + 1] == ']' && s[i + 2] == '>'))
  }

  /** A host whose primitives behave as their documentation promises:
      parsing undoes formatting for every float that is not a NaN, base64
      decoding undoes encoding, the text of both is markup-free, and a map
      is visited once per key. */
  ghost predicate Lawful(h: Host) {
    && (forall d | !IsNaN(d) :: h.parseFloat(h.formatFloat(d)) == Some(d))
    && (forall d :: MarkupFree(h.formatFloat(d)))
    && (forall b :: h.decodeBase64(h.encodeBase64(b)) == Some(b))
    && (forall b :: MarkupFree(h.encodeBase64(b)))
    && (forall ks: set<string> :: NoDuplicates(h.memberOrder(ks)) &&
          forall k :: k in h.memberOrder(ks) <==> k in ks)
  }

  /** No nil anywhere in the tree: calling `ToXML` on nil panics in Go. */
  predicate Encodable(v: ParamValue) {
    match v
    case Nil => false
    case StructValue(m) => forall k | k in m :: Encodable(m[k])
    case ArrayValue(es) => forall i | 0 <= i < |es| :: Encodable(es[i])
    case _ => true
  }

  /** The values that survive encode-then-decode unchanged: booleans are
      written as `true`/`false` but read only as `0`/`1`, date-times are not
      implemented, a fault is written as a plain struct, and nil cannot be
      written at all. Strings and member names must be markup-free, since
      the writers do not escape them, and a NaN is not read back bit for
      bit. */
  predicate RoundTrippable(v: ParamValue) {
    match v
    case BooleanValue(_) => false
    case DateTimeValue(_) => false
    case FaultValue(_) => false
    case Nil => false
    case StringValue(s) => MarkupFree(s)
    case DoubleValue(d) => !IsNaN(d)
    case StructValue(m) => forall k | k in m :: MarkupFree(k) && RoundTrippable(m[k])
    case ArrayValue(es) => forall i | 0 <= i < |es| :: RoundTrippable(es[i])
    case _ => true
  }

  /** Go's `unicode.ToLower` on the characters that can lower-case to an
      ASCII letter: `A`-`Z`, U+0130 (to `i`) and U+212A (to `k`). Any other
      character is kept, which never changes whether a name equals one of
      the ASCII tag names compared against. */
  function LowerChar(c: char): char {
    if 'A' <= c <= 'Z' then (c as int + 32) as char
    else if c == '\U{0130}' then 'i'
    else if c == '\U{212A}' then 'k'
    else c
  }

  function Lower(s: string): (r: string)
    ensures |r| == |s| && forall i | 0 <= i < |s| :: r[i] == LowerChar(s[i])
  {
    seq(|s|, i requires 0 <= i < |s| => LowerChar(s[i]))
  }
}
