/** The response envelope (xmlrpc/response.go): reading a
    `<methodResponse>` document, which holds either one value under
    `<params>` or a fault, and writing one of each kind. */
module Responses {
  import opened Values
  import opened Tokens
  import opened Encoding
  import opened Decoding
  import opened Parser
  import opened Output
  import Codec

  /** `Response`: the single value a successful call returns. */
  datatype Response = Response(value: ParamValue)

  /** What `ReadResponse` returns for a document given as its tokens. The
      first significant token is discarded unchecked; the next must be a
      start tag named (in any case) `fault` or `params`. A fault is turned
      into an error; under `params` two tokens are skipped unchecked before
      the value. */
  function ResponseOf(h: Host, toks: seq<Token>): Result<Response> {
    var (t, rest) :- Next(Skip(toks), false);
    if !t.StartElement? then Err(InvalidResponse)
    else if Lower(t.name) == "fault" then
      match LoadFault(h, rest)
      case Ok((f, _)) => Err(RemoteFault(f.fault.faultCode, f.fault.faultString))
      case Err(e) => Err(e)
    else if Lower(t.name) == "params" then
      var (v, _) :- Parse(h, Skip(Skip(rest)));
      Ok(Response(v))
    else Err(InvalidResponse)
  }

  /** `ReadResponse`, reading from a fresh stream over `toks`. */
  method ReadResponse(h: Host, toks: seq<Token>) returns (r: Result<Response>)
    ensures r == ResponseOf(h, toks)
  {
    var p := new TokenStream(toks);
    var discarded := p.Next(false);
    var t :- p.Next(false);
    if !t.StartElement? {
      return Err(InvalidResponse);
    }
    var kind := Lower(t.name);
    if kind == "fault" {
      var f := p.LoadFault(h);
      if f.Ok? {
        return Err(RemoteFault(f.value.fault.faultCode, f.value.fault.faultString));
      }
      return Err(f.error);
    } else if kind == "params" {
      var param := p.Next(false);
      var value := p.Next(false);
      var a :- p.Parse(h);
      return Ok(Response(a));
    }
    return Err(InvalidResponse);
  }

  /** The prolog in front of a document is skipped with the first token. */
  lemma PrologIgnored(h: Host, toks: seq<Token>)
    ensures ResponseOf(h, Prolog + toks) == ResponseOf(h, toks)
  {
    NextSkipsProlog(toks);
  }

  /** The first significant token (`<methodResponse>`) is discarded without
      being looked at: any other significant token there gives the same
      result. */
  lemma FirstTokenIgnored(h: Host, t: Token, u: Token, toks: seq<Token>)
    requires Significant(t, false) && Significant(u, false)
    ensures ResponseOf(h, [t] + toks) == ResponseOf(h, [u] + toks)
  {
    Codec.NextHead(t, toks, false);
    Codec.NextHead(u, toks, false);
  }

  /** A second token that is not a start tag named `fault` or `params` is
      an invalid response. */
  lemma ResponseRejects(h: Host, first: Token, t: Token, toks: seq<Token>)
    requires Significant(first, false) && Significant(t, false)
    requires !t.StartElement? || (Lower(t.name) != "fault" && Lower(t.name) != "params")
    ensures ResponseOf(h, [first] + ([t] + toks)) == Err(InvalidResponse)
  {
    Codec.NextHead(first, [t] + toks, false);
    Codec.NextHead(t, toks, false);
  }

  /** A `fault` element never gives a response: a fault that reads well
      becomes the error, and a malformed one gives the error met reading
      it. */
  lemma FaultIsError(h: Host, first: Token, name: string, toks: seq<Token>)
    requires Significant(first, false) && Lower(name) == "fault"
    ensures ResponseOf(h, [first] + ([StartElement(name)] + toks)).Err?
    ensures LoadFault(h, toks).Ok? ==>
      var f := LoadFault(h, toks).value.0.fault;
      ResponseOf(h, [first] + ([StartElement(name)] + toks)) == Err(RemoteFault(f.faultCode, f.faultString))
    ensures LoadFault(h, toks).Err? ==>
      ResponseOf(h, [first] + ([StartElement(name)] + toks)) == Err(LoadFault(h, toks).error)
  {
    Codec.NextHead(first, [StartElement(name)] + toks, false);
    Codec.NextHead(StartElement(name), toks, false);
  }

  /** Under `params` the next two significant tokens are skipped whatever
      they are, and the response is the one value read after them. */
  lemma ParamsSkipsTwo(h: Host, first: Token, name: string, a: Token, b: Token, toks: seq<Token>)
    requires Significant(first, false) && Lower(name) == "params"
    requires Significant(a, false) && Significant(b, false)
    ensures ResponseOf(h, [first] + ([StartElement(name)] + ([a] + ([b] + toks)))) ==
      match Decoding.ParseMessage(h, toks)
      case Ok(v) => Ok(Response(v))
      case Err(e) => Err(e)
  {
    Codec.NextHead(first, [StartElement(name)] + ([a] + ([b] + toks)), false);
    Codec.NextHead(StartElement(name), [a] + ([b] + toks), false);
    Codec.NextHead(a, [b] + toks, false);
    Codec.NextHead(b, toks, false);
  }

  lemma EnvelopeTagNames()
    ensures Lower("params") == "params" && Lower("fault") == "fault"
  {
  }

  /** The tokens of the document `Response.SendXML` writes. */
  function ResponseTokens(h: Host, v: ParamValue): seq<Token> {
    Prolog + Element("methodResponse", Element("params", Element("param", Element("value", ToTokens(h, v)))))
  }

  /** The tokens of the document `Fault.SendXML` writes. */
  function FaultResponseTokens(h: Host, f: Fault): seq<Token> {
    Prolog + Element("methodResponse", Element("fault", Element("value", ToTokens(h, FaultValue(f)))))
  }

  /** `Response.SendXML`: the prolog, the envelope tags, and the value's
      text, written piece by piece. */
  method SendXML(h: Host, r: Response, out: Writer)
    requires Encodable(r.value)
    modifies out
    ensures out.written == old(out.written) + Render(ResponseTokens(h, r.value))
  {
    out.WriteString("<?xml version=\"1.0\"?>\n");
    out.WriteString("<methodResponse>");
    out.WriteString("<params>");
    out.WriteString("<param><value>");
    var x := ToXML(h, r.value);
    out.WriteString(x);
    out.WriteString("</value></param>");
    out.WriteString("</params>");
    out.WriteString("</methodResponse>");
    ResponseText(h, r.value, old(out.written), x);
  }

  /** `Fault.SendXML` */
  method SendFaultXML(h: Host, f: Fault, out: Writer)
    modifies out
    ensures out.written == old(out.written) + Render(FaultResponseTokens(h, f))
  {
    out.WriteString("<?xml version=\"1.0\"?>\n");
    out.WriteString("<methodResponse>");
    out.WriteString("<fault>");
    out.WriteString("<value>");
    var x := FaultToXML(h, f);
    out.WriteString(x);
    out.WriteString("</value>");
    out.WriteString("</fault>");
    out.WriteString("</methodResponse>");
    FaultResponseText(h, f, old(out.written), x);
  }

  /** Reading back the document `Response.SendXML` writes gives its value. */
  lemma ResponseRoundTrip(h: Host, v: ParamValue, tail: seq<Token>)
    requires Lawful(h) && RoundTrippable(v)
    ensures ResponseOf(h, ResponseTokens(h, v) + tail) == Ok(Response(v))
  {
    var closing := [EndElement("value"), EndElement("param"), EndElement("params"), EndElement("methodResponse")] + tail;
    var body := ToTokens(h, v) + closing;
    ResponseShape(h, v, tail);
    PrologIgnored(h, [StartElement("methodResponse")] + ([StartElement("params")]
                     + ([StartElement("param")] + ([StartElement("value")] + body))));
    EnvelopeTagNames();
    ParamsSkipsTwo(h, StartElement("methodResponse"), "params", StartElement("param"), StartElement("value"), body);
    Codec.RoundTrip(h, v, closing);
  }

  lemma ResponseShape(h: Host, v: ParamValue, tail: seq<Token>)
    ensures ResponseTokens(h, v) + tail
         == Prolog + ([StartElement("methodResponse")] + ([StartElement("params")] + ([StartElement("param")]
            + ([StartElement("value")] + (ToTokens(h, v) + ([EndElement("value"), EndElement("param"),
            EndElement("params"), EndElement("methodResponse")] + tail))))))
  {
    ParamsEnvelopeShape(ToTokens(h, v), tail);
  }

  lemma ParamsEnvelopeShape(content: seq<Token>, tail: seq<Token>)
    ensures Prolog + Element("methodResponse", Element("params", Element("param", Element("value", content)))) + tail
         == Prolog + ([StartElement("methodResponse")] + ([StartElement("params")] + ([StartElement("param")]
            + ([StartElement("value")] + (content + ([EndElement("value"), EndElement("param"),
            EndElement("params"), EndElement("methodResponse")] + tail))))))
  {
  }

  /** Reading back the document `Fault.SendXML` writes reports that fault,
      with the same code and string, as the error. */
  lemma FaultResponseRoundTrip(h: Host, f: Fault, tail: seq<Token>)
    requires Lawful(h) && MarkupFree(f.faultString)
    ensures ResponseOf(h, FaultResponseTokens(h, f) + tail) == Err(RemoteFault(f.faultCode, f.faultString))
  {
    var closing := [EndElement("value"), EndElement("fault"), EndElement("methodResponse")] + tail;
    var vt := ToTokens(h, FaultValue(f)) + closing;
    FaultResponseShape(h, f, tail);
    PrologIgnored(h, [StartElement("methodResponse")] + ([StartElement("fault")] + ([StartElement("value")] + vt)));
    EnvelopeTagNames();
    Codec.FaultReadsAsStruct(h, f, closing);
    Codec.FaultNeedsCodeAndString(h, vt, StructValue(FaultStruct(f)), closing);
    FaultIsError(h, StartElement("methodResponse"), "fault", [StartElement("value")] + vt);
  }

  lemma FaultResponseShape(h: Host, f: Fault, tail: seq<Token>)
    ensures FaultResponseTokens(h, f) + tail
         == Prolog + ([StartElement("methodResponse")] + ([StartElement("fault")] + ([StartElement("value")]
            + (ToTokens(h, FaultValue(f)) + ([EndElement("value"), EndElement("fault"),
            EndElement("methodResponse")] + tail)))))
  {
    FaultEnvelopeShape(ToTokens(h, FaultValue(f)), tail);
  }

  lemma FaultEnvelopeShape(content: seq<Token>, tail: seq<Token>)
    ensures Prolog + Element("methodResponse", Element("fault", Element("value", content))) + tail
         == Prolog + ([StartElement("methodResponse")] + ([StartElement("fault")] + ([StartElement("value")]
            + (content + ([EndElement("value"), EndElement("fault"), EndElement("methodResponse")] + tail)))))
  {
  }

  lemma ResponseText(h: Host, v: ParamValue, w: string, x: string)
    requires x == Render(ToTokens(h, v))
    ensures w + "<?xml version=\"1.0\"?>\n" + "<methodResponse>" + "<params>" + "<param><value>" + x
            + "</value></param>" + "</params>" + "</methodResponse>"
         == w + Render(ResponseTokens(h, v))
  {
    RenderParamsEnvelope(ToTokens(h, v));
    ResponseLiterals();
    ParamsLiterals();
    Nest4(w, "<?xml version=\"1.0\"?>\n", StartTag("methodResponse"), StartTag("params"), StartTag("param"),
          StartTag("value"), x, EndTag("value"), EndTag("param"), EndTag("params"), EndTag("methodResponse"));
  }

  lemma FaultResponseText(h: Host, f: Fault, w: string, x: string)
    requires x == Render(ToTokens(h, FaultValue(f)))
    ensures w + "<?xml version=\"1.0\"?>\n" + "<methodResponse>" + "<fault>" + "<value>" + x
            + "</value>" + "</fault>" + "</methodResponse>"
         == w + Render(FaultResponseTokens(h, f))
  {
    RenderFaultEnvelope(ToTokens(h, FaultValue(f)));
    ResponseLiterals();
    FaultLiterals();
    Nest3(w, "<?xml version=\"1.0\"?>\n", StartTag("methodResponse"), StartTag("fault"), StartTag("value"),
          x, EndTag("value"), EndTag("fault"), EndTag("methodResponse"));
  }

  lemma ResponseLiterals()
    ensures "<methodResponse>" == StartTag("methodResponse")
    ensures "</methodResponse>" == EndTag("methodResponse")
  {
  }

  lemma ParamsLiterals()
    ensures "<params>" == StartTag("params") && "</params>" == EndTag("params")
    ensures "<param><value>" == StartTag("param") + StartTag("value")
    ensures "</value></param>" == EndTag("value") + EndTag("param")
  {
  }

  lemma FaultLiterals()
    ensures "<fault>" == StartTag("fault") && "</fault>" == EndTag("fault")
    ensures "<value>" == StartTag("value") && "</value>" == EndTag("value")
  {
  }

  lemma RenderParamsEnvelope(content: seq<Token>)
    ensures Render(Prolog + Element("methodResponse", Element("params", Element("param", Element("value", content)))))
         == "<?xml version=\"1.0\"?>\n" + (StartTag("methodResponse") + (StartTag("params") + (StartTag("param")
            + (StartTag("value") + Render(content) + EndTag("value")) + EndTag("param")) + EndTag("params"))
            + EndTag("methodResponse"))
  {
    var value := Element("value", content);
    var param := Element("param", value);
    var params := Element("params", param);
    RenderAppend(Prolog, Element("methodResponse", params));
    PrologText();
    RenderElement("value", content);
    RenderElement("param", value);
    RenderElement("params", param);
    RenderElement("methodResponse", params);
  }

  lemma RenderFaultEnvelope(content: seq<Token>)
    ensures Render(Prolog + Element("methodResponse", Element("fault", Element("value", content))))
         == "<?xml version=\"1.0\"?>\n" + (StartTag("methodResponse") + (StartTag("fault")
            + (StartTag("value") + Render(content) + EndTag("value")) + EndTag("fault")) + EndTag("methodResponse"))
  {
    var value := Element("value", content);
    var fault := Element("fault", value);
    RenderAppend(Prolog, Element("methodResponse", fault));
    PrologText();
    RenderElement("value", content);
    RenderElement("fault", value);
    RenderElement("methodResponse", fault);
  }

  lemma Nest4(w: string, p: string, a: string, b: string, c: string, d: string, x: string,
              e: string, f: string, g: string, k: string)
    ensures w + p + a + b + (c + d) + x + (e + f) + g + k
         == w + (p + (a + (b + (c + (d + x + e) + f) + g) + k))
  {
  }

  lemma Nest3(w: string, p: string, a: string, b: string, c: string, x: string,
              e: string, f: string, k: string)
    ensures w + p + a + b + c + x + e + f + k == w + (p + (a + (b + (c + x + e) + f) + k))
  {
  }
}
