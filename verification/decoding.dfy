/** The decoder of xmlrpc/common.go as pure functions over the token
    sequence: each step returns the value it read together with the tokens
    after it, or an error. These are the specification the stateful parser
    in module `Parser` is proved against. Every step that succeeds consumes
    at least one token, which is what makes the mutual recursion terminate. */
module Decoding {
  import opened Values
  import opened Tokens
  import opened Numbers

  /** `parseMessage`: the next start tag selects the variant, compared after
      lower-casing; its loader reads the rest. */
  function Parse(h: Host, toks: seq<Token>): (r: Result<(ParamValue, seq<Token>)>)
    ensures r.Ok? ==> |r.value.1| < |toks|
    decreases |toks|, 0
  {
    var (t, rest) :- Next(toks, false);
    if !t.StartElement? then Err(UnexpectedSymbol)
    else Dispatch(h, t.name, rest)
  }

  /** The `switch` of `parseMessage`, on the name of the start tag just read. */
  function Dispatch(h: Host, name: string, rest: seq<Token>): (r: Result<(ParamValue, seq<Token>)>)
    ensures r.Ok? ==> |r.value.1| < |rest|
    decreases |rest|, 1
  {
    var kind := Lower(name);
    if kind == "int" || kind == "i4" then LoadInt(rest)
    else if kind == "boolean" then LoadBoolean(rest)
    else if kind == "string" then LoadString(rest)
    else if kind == "double" then LoadDouble(h, rest)
    else if kind == "datetime.iso8601" then Err(DateNotImplemented)
    else if kind == "base64" then LoadBase64(h, rest)
    else if kind == "struct" then LoadStruct(h, rest, map[])
    else if kind == "fault" then LoadFault(h, rest)
    else if kind == "array" then LoadArray(h, rest)
    else Err(UnknownType(name))
  }

  /** `ParseMessage`: one value from the start of a document; what follows
      it is not looked at. */
  function ParseMessage(h: Host, toks: seq<Token>): Result<ParamValue> {
    var (v, _) :- Parse(h, toks);
    Ok(v)
  }

  /** `IntValue.LoadXML` */
  function LoadInt(toks: seq<Token>): (r: Result<(ParamValue, seq<Token>)>)
    ensures r.Ok? ==> |r.value.1| < |toks| && r.value.0.IntValue?
  {
    var (body, rest) :- ReadBody(toks);
    match Atoi(body)
    case Some(i) => Ok((IntValue(i), rest))
    case None => Err(BadInt(body))
  }

  /** `BooleanValue.LoadXML`: exactly `0` or `1`. */
  function LoadBoolean(toks: seq<Token>): (r: Result<(ParamValue, seq<Token>)>)
    ensures r.Ok? ==> |r.value.1| < |toks| && r.value.0.BooleanValue?
  {
    var (body, rest) :- ReadBody(toks);
    if body == "0" then Ok((BooleanValue(false), rest))
    else if body == "1" then Ok((BooleanValue(true), rest))
    else Err(BadBoolean(body))
  }

  /** `StringValue.LoadXML`: the body, verbatim. */
  function LoadString(toks: seq<Token>): (r: Result<(ParamValue, seq<Token>)>)
    ensures r.Ok? ==> |r.value.1| < |toks| && r.value.0.StringValue?
  {
    var (body, rest) :- ReadBody(toks);
    Ok((StringValue(body), rest))
  }

  /** `DoubleValue.LoadXML` */
  function LoadDouble(h: Host, toks: seq<Token>): (r: Result<(ParamValue, seq<Token>)>)
    ensures r.Ok? ==> |r.value.1| < |toks| && r.value.0.DoubleValue?
  {
    var (body, rest) :- ReadBody(toks);
    match h.parseFloat(body)
    case Some(d) => Ok((DoubleValue(d), rest))
    case None => Err(BadDouble(body))
  }

  /** `Base64Value.LoadXML` */
  function LoadBase64(h: Host, toks: seq<Token>): (r: Result<(ParamValue, seq<Token>)>)
    ensures r.Ok? ==> |r.value.1| < |toks| && r.value.0.Base64Value?
  {
    var (body, rest) :- ReadBody(toks);
    match h.decodeBase64(body)
    case Some(b) => Ok((Base64Value(b), rest))
    case None => Err(BadBase64(body))
  }

  /** `StructValue.LoadXML`, from the token after `<struct>`: members are
      stored into `acc` until an end tag named `struct` (in any case). The
      token that opens a member is not checked. */
  function LoadStruct(h: Host, toks: seq<Token>, acc: map<string, ParamValue>): (r: Result<(ParamValue, seq<Token>)>)
    ensures r.Ok? ==> |r.value.1| < |toks| && r.value.0.StructValue?
    decreases |toks|, 0
  {
    var (t, rest) :- Next(toks, false);
    if t.EndElement? && Lower(t.name) == "struct" then Ok((StructValue(acc), rest))
    else
      var (name, value, rest2) :- Fields(h, rest, 2, "", Nil);
      var (_, rest3) :- Next(rest2, false);
      LoadStruct(h, rest3, acc[name := value])
  }

  /** The two child elements of a member: each must be a start tag; `name`
      (matched exactly) gives the key, `value` the value, after which one
      token is skipped unchecked; any other tag is passed over. */
  function Fields(h: Host, toks: seq<Token>, count: nat, name: string, value: ParamValue)
    : (r: Result<(string, ParamValue, seq<Token>)>)
    ensures r.Ok? ==> |r.value.2| <= |toks| && (count > 0 ==> |r.value.2| < |toks|)
    decreases |toks|, 0
  {
    if count == 0 then Ok((name, value, toks))
    else
      var (t, rest) :- Next(toks, false);
      if !t.StartElement? then Err(UnexpectedToken)
      else if t.name == "name" then
        var (n, rest2) :- ReadBody(rest);
        Fields(h, rest2, count - 1, n, value)
      else if t.name == "value" then
        var (v, rest2) :- Parse(h, rest);
        Fields(h, Skip(rest2), count - 1, name, v)
      else
        Fields(h, rest, count - 1, name, value)
  }

  /** `ArrayValue.LoadXML`, from the token after `<array>`: one token
      (`<data>`) is skipped, then the elements. */
  function LoadArray(h: Host, toks: seq<Token>): (r: Result<(ParamValue, seq<Token>)>)
    ensures r.Ok? ==> |r.value.1| < |toks| && r.value.0.ArrayValue?
    decreases |toks|, 0
  {
    var (_, rest) :- Next(toks, false);
    LoadElems(h, rest, [])
  }

  /** Elements until an end tag named exactly `data`; the token after it
      (`</array>`) is skipped unchecked. Each element is one token (its
      `<value>`, unchecked), a value, and one more token (`</value>`). */
  function LoadElems(h: Host, toks: seq<Token>, acc: seq<ParamValue>): (r: Result<(ParamValue, seq<Token>)>)
    ensures r.Ok? ==> |r.value.1| < |toks| && r.value.0.ArrayValue?
    decreases |toks|, 0
  {
    var (t, rest) :- Next(toks, false);
    if t.EndElement? && t.name == "data" then Ok((ArrayValue(acc), Skip(rest)))
    else
      var (v, rest2) :- Parse(h, rest);
      var (_, rest3) :- Next(rest2, false);
      LoadElems(h, rest3, acc + [v])
  }

  /** Whether a decoded value has the shape of a fault. */
  predicate IsFaultStruct(v: ParamValue) {
    && v.StructValue?
    && "faultString" in v.members && v.members["faultString"].StringValue?
    && "faultCode" in v.members && v.members["faultCode"].IntValue?
  }

  /** `Fault.LoadXML`, from the token after `<fault>`: a start tag named
      exactly `value`, then a struct holding an int `faultCode` and a string
      `faultString`. */
  function LoadFault(h: Host, toks: seq<Token>): (r: Result<(ParamValue, seq<Token>)>)
    ensures r.Ok? ==> |r.value.1| < |toks| && r.value.0.FaultValue?
    decreases |toks|, 0
  {
    var (t, rest) :- Next(toks, false);
    if !(t.StartElement? && t.name == "value") then Err(UnexpectedSymbol)
    else
      var (m, rest2) :- Parse(h, rest);
      if IsFaultStruct(m) then
        Ok((FaultValue(Fault(m.members["faultCode"].i, m.members["faultString"].s)), rest2))
      else Err(InvalidFault)
  }
}
