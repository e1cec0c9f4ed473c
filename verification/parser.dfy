/** The decoder of xmlrpc/common.go as the source writes it: a token stream
    whose position advances as each step reads, loops where the source
    loops, and a buffer that doubles as array elements arrive. Each method is
    proved to compute what the matching function of module `Decoding`
    specifies, so everything proved about those functions (in module
    `Codec`) holds of these methods. */
module Parser {
  import opened Values
  import opened Tokens
  import opened Numbers
  import Decoding

  /** A method's result and the position it leaves the stream at agree with
      a specification step: the same value and the same remaining tokens, or
      the same error (where an error leaves the stream is not stated). */
  ghost predicate Agrees<T>(r: Result<T>, rest: seq<Token>, spec: Result<(T, seq<Token>)>) {
    match spec
    case Ok((v, after)) => r == Ok(v) && rest == after
    case Err(e) => r == Err(e)
  }

  /** What `readBody` returns once `ret` has been read, given what it reads
      from here on. */
  ghost function AfterText(ret: string, r: Result<(string, seq<Token>)>): Result<(string, seq<Token>)> {
    match r
    case Ok((body, after)) => Ok((ret + body, after))
    case Err(e) => Err(e)
  }

  /** `tokenStream`, wrapping an `xml.Parser`: the tokens it has not handed
      out yet. */
  class TokenStream {
    var rest: seq<Token>

    constructor (toks: seq<Token>)
      ensures rest == toks
    {
      rest := toks;
    }

    /** `next`: skips what is not significant and hands out the next
        token; at the end of the input the stream is exhausted. */
    method Next(allowChar: bool) returns (r: Result<Token>)
      modifies this
      ensures Agrees(r, rest, Tokens.Next(old(rest), allowChar))
      ensures r.Err? ==> rest == []
      decreases |rest|
    {
      if rest == [] {
        return Err(EndOfInput);
      }
      var t := rest[0];
      rest := rest[1..];
      match t {
        case StartElement(_) => return Ok(t);
        case EndElement(_) => return Ok(t);
        case CharData(_) =>
          if !allowChar {
            r := Next(allowChar);
          } else {
            return Ok(t);
          }
        case _ => r := Next(allowChar);
      }
    }

    /** `readBody`: collects character data until an end tag. */
    method ReadBody() returns (r: Result<string>)
      modifies this
      ensures Agrees(r, rest, Tokens.ReadBody(old(rest)))
    {
      var ret := "";
      AfterTextNone(Tokens.ReadBody(rest));
      while true
        invariant Tokens.ReadBody(old(rest)) == AfterText(ret, Tokens.ReadBody(rest))
        decreases |rest|
      {
        ghost var before := rest;
        var t :- Next(true);
        match t {
          case CharData(text) =>
            assert Tokens.ReadBody(before) == AfterText(text, Tokens.ReadBody(rest));
            AfterTextTwice(ret, text, Tokens.ReadBody(rest));
            ret := ret + text;
          case EndElement(_) =>
            assert ret + "" == ret;
            return Ok(ret);
          case _ => return Err(UnexpectedToken);
        }
      }
    }

    /** `parseMessage`: the next start tag, lower-cased, selects the
        loader. */
    method Parse(h: Host) returns (r: Result<ParamValue>)
      modifies this
      ensures Agrees(r, rest, Decoding.Parse(h, old(rest)))
      decreases |rest|
    {
      var t :- Next(false);
      if !t.StartElement? {
        return Err(UnexpectedSymbol);
      }
      var kind := Lower(t.name);
      if kind == "int" || kind == "i4" {
        r := LoadInt();
      } else if kind == "boolean" {
        r := LoadBoolean();
      } else if kind == "string" {
        r := LoadString();
      } else if kind == "double" {
        r := LoadDouble(h);
      } else if kind == "datetime.iso8601" {
        r := Err(DateNotImplemented);
      } else if kind == "base64" {
        r := LoadBase64(h);
      } else if kind == "struct" {
        r := LoadStruct(h);
      } else if kind == "fault" {
        r := LoadFault(h);
      } else if kind == "array" {
        r := LoadArray(h);
      } else {
        r := Err(UnknownType(t.name));
      }
    }

    /** `IntValue.LoadXML` */
    method LoadInt() returns (r: Result<ParamValue>)
      modifies this
      ensures Agrees(r, rest, Decoding.LoadInt(old(rest)))
    {
      var s :- ReadBody();
      match Atoi(s) {
        case Some(i) => return Ok(IntValue(i));
        case None => return Err(BadInt(s));
      }
    }

    /** `BooleanValue.LoadXML` */
    method LoadBoolean() returns (r: Result<ParamValue>)
      modifies this
      ensures Agrees(r, rest, Decoding.LoadBoolean(old(rest)))
    {
      var s :- ReadBody();
      if s == "0" {
        return Ok(BooleanValue(false));
      } else if s == "1" {
        return Ok(BooleanValue(true));
      }
      return Err(BadBoolean(s));
    }

    /** `StringValue.LoadXML` */
    method LoadString() returns (r: Result<ParamValue>)
      modifies this
      ensures Agrees(r, rest, Decoding.LoadString(old(rest)))
    {
      var s :- ReadBody();
      return Ok(StringValue(s));
    }

    /** `DoubleValue.LoadXML` */
    method LoadDouble(h: Host) returns (r: Result<ParamValue>)
      modifies this
      ensures Agrees(r, rest, Decoding.LoadDouble(h, old(rest)))
    {
      var s :- ReadBody();
      match h.parseFloat(s) {
        case Some(d) => return Ok(DoubleValue(d));
        case None => return Err(BadDouble(s));
      }
    }

    /** `Base64Value.LoadXML` */
    method LoadBase64(h: Host) returns (r: Result<ParamValue>)
      modifies this
      ensures Agrees(r, rest, Decoding.LoadBase64(h, old(rest)))
    {
      var s :- ReadBody();
      match h.decodeBase64(s) {
        case Some(b) => return Ok(Base64Value(b));
        case None => return Err(BadBase64(s));
      }
    }

    /** `StructValue.LoadXML`: one member per round until `</struct>`; each
        member reads two child elements, then skips `</member>`. */
    method LoadStruct(h: Host) returns (r: Result<ParamValue>)
      modifies this
      ensures Agrees(r, rest, Decoding.LoadStruct(h, old(rest), map[]))
      decreases |rest|
    {
      var s: map<string, ParamValue> := map[];
      while true
        invariant Decoding.LoadStruct(h, old(rest), map[]) == Decoding.LoadStruct(h, rest, s)
        invariant |rest| <= old(|rest|)
        decreases |rest|
      {
        ghost var before := rest;
        var t :- Next(false);
        if t.EndElement? && Lower(t.name) == "struct" {
          return Ok(StructValue(s));
        }
        var name, value := "", Nil;
        ghost var fields := rest;
        for x := 0 to 2
          invariant Decoding.Fields(h, fields, 2, "", Nil) == Decoding.Fields(h, rest, 2 - x, name, value)
          invariant |rest| <= |fields| < |before|
        {
          var f :- Next(false);
          if !f.StartElement? {
            return Err(UnexpectedToken);
          }
          if f.name == "name" {
            name :- ReadBody();
          } else if f.name == "value" {
            var v := Parse(h);
            var closing := Next(false);
            value :- v;
          }
        }
        var closing :- Next(false);
        s := s[name := value];
      }
    }

    /** `ArrayValue.LoadXML`: after `<data>`, one element per round until
        `</data>`, kept in a buffer of capacity two that is replaced by one
        of twice the length whenever it is full. */
    method LoadArray(h: Host) returns (r: Result<ParamValue>)
      modifies this
      ensures Agrees(r, rest, Decoding.LoadArray(h, old(rest)))
      decreases |rest|
    {
      var a := new ParamValue[2](_ => Nil);
      var data :- Next(false);
      var x := 0;
      ghost var elems: seq<ParamValue> := [];
      while true
        invariant fresh(a) && 2 <= a.Length && 0 <= x <= a.Length
        invariant a[..x] == elems
        invariant Decoding.LoadArray(h, old(rest)) == Decoding.LoadElems(h, rest, elems)
        invariant |rest| < old(|rest|)
        decreases |rest|
      {
        ghost var before := rest;
        var t :- Next(false);
        if t.EndElement? && t.name == "data" {
          var closing := Next(false);
          return Ok(ArrayValue(a[..x]));
        }
        ghost var afterOpen := rest;
        var value :- Parse(h);
        a := Put(a, x, value);
        elems := elems + [value];
        ghost var afterValue := rest;
        var closing :- Next(false);
        LoadElemsStep(h, before, afterOpen, afterValue, rest, elems[..x], value);
        x := x + 1;
      }
    }

    /** `Fault.LoadXML`: `<value>`, then a struct with an int `faultCode`
        and a string `faultString`. */
    method LoadFault(h: Host) returns (r: Result<ParamValue>)
      modifies this
      ensures Agrees(r, rest, Decoding.LoadFault(h, old(rest)))
      decreases |rest|
    {
      var t :- Next(false);
      if !(t.StartElement? && t.name == "value") {
        return Err(UnexpectedSymbol);
      }
      var m :- Parse(h);
      if !Decoding.IsFaultStruct(m) {
        return Err(InvalidFault);
      }
      return Ok(FaultValue(Fault(m.members["faultCode"].i, m.members["faultString"].s)));
    }
  }

  /** The fresh, twice as long buffer `ArrayValue.LoadXML` copies a full
      one into. */
  method Grow(a: array<ParamValue>, x: nat) returns (b: array<ParamValue>)
    requires 0 < a.Length <= x
    ensures fresh(b) && b.Length == 2 * x && b[..a.Length] == a[..]
  {
    b := new ParamValue[2 * x](_ => Nil);
    for i := 0 to a.Length
      invariant b[..i] == a[..i]
    {
      b[i] := a[i];
    }
  }

  /** Stores `value` at index `x` of the buffer, first copying it into one
      twice as long when it is full (`cap(a) <= x`). */
  method Put(a: array<ParamValue>, x: nat, value: ParamValue) returns (b: array<ParamValue>)
    requires 2 <= a.Length && x <= a.Length
    modifies a
    ensures fresh(b) || b == a
    ensures 2 <= b.Length && x < b.Length
    ensures b[..x + 1] == old(a[..x]) + [value]
  {
    b := a;
    if a.Length <= x {
      b := Grow(a, x);
    }
    b[x] := value;
    assert b[..x + 1] == b[..x] + [value];
  }

  /** One element round of the array loader. */
  lemma LoadElemsStep(h: Host, toks: seq<Token>, afterOpen: seq<Token>, afterValue: seq<Token>,
                      afterClose: seq<Token>, acc: seq<ParamValue>, v: ParamValue)
    requires Tokens.Next(toks, false).Ok? && Tokens.Next(toks, false).value.1 == afterOpen
    requires var t := Tokens.Next(toks, false).value.0; !(t.EndElement? && t.name == "data")
    requires Decoding.Parse(h, afterOpen) == Ok((v, afterValue))
    requires Tokens.Next(afterValue, false).Ok? && Tokens.Next(afterValue, false).value.1 == afterClose
    ensures Decoding.LoadElems(h, toks, acc) == Decoding.LoadElems(h, afterClose, acc + [v])
  {
  }

  lemma AfterTextNone(r: Result<(string, seq<Token>)>)
    ensures AfterText("", r) == r
  {
    if r.Ok? {
      assert "" + r.value.0 == r.value.0;
    }
  }

  lemma AfterTextTwice(ret: string, text: string, r: Result<(string, seq<Token>)>)
    ensures AfterText(ret, AfterText(text, r)) == AfterText(ret + text, r)
  {
    if r.Ok? {
      assert ret + (text + r.value.0) == ret + text + r.value.0;
    }
  }

  /** `ParseMessage`: one value read from a fresh stream over `toks`. */
  method ParseMessage(h: Host, toks: seq<Token>) returns (r: Result<ParamValue>)
    ensures r == Decoding.ParseMessage(h, toks)
  {
    var p := new TokenStream(toks);
    r := p.Parse(h);
  }
}
