/** The request side (xmlrpc/request.go and the `RemoteMethod` members of
    xmlrpc/param.go): a remote method with its per-type field renamings,
    the `<methodCall>` document it writes, and the conversion of call
    arguments. */
module Requests {
  import opened Values
  import opened Tokens
  import opened Encoding
  import opened Decoding
  import opened Output
  import opened Params
  import Codec

  /** The tokens of `<param><value>…</value></param>`, one per parameter, in
      order. */
  function ParamListTokens(h: Host, ps: seq<ParamValue>): seq<Token>
    decreases |ps|
  {
    if ps == [] then []
    else ParamListTokens(h, ps[..|ps| - 1]) + ParamTokens(h, ps[|ps| - 1])
  }

  /** `<param><value>…</value></param>` around one parameter. */
  function ParamTokens(h: Host, v: ParamValue): seq<Token> {
    Element("param", Element("value", ToTokens(h, v)))
  }

  /** The tokens of the document `SendXML` writes. */
  function RequestTokens(h: Host, name: string, ps: seq<ParamValue>): seq<Token> {
    Prolog + Element("methodCall", Element("methodName", Text(name)) + Element("params", ParamListTokens(h, ps)))
  }

  /** The text `SendXML` writes before the first parameter. */
  function RequestHead(name: string): string {
    "<?xml version=\"1.0\"?>\n" + "<methodCall>" + ("<methodName>" + name + "</methodName>") + "<params>"
  }

  /** The field map registered for `typeName` after `RegisterFieldMap`:
      the old one (or an empty one), with every pair of `mapping` copied in
      over it. */
  function Registered(maps: FieldMaps, typeName: string, mapping: map<string, string>): (r: map<string, string>)
    ensures r.Keys == mapping.Keys + (if typeName in maps then maps[typeName].Keys else {})
    ensures forall k | k in mapping :: r[k] == mapping[k]
    ensures typeName in maps ==> forall k | k in maps[typeName] && k !in mapping :: r[k] == maps[typeName][k]
  {
    (if typeName in maps then maps[typeName] else map[]) + mapping
  }

  /** `RemoteMethod`: where to send calls, the method to call, and the
      wire names registered per struct type. */
  class RemoteMethod {
    var endpoint: string
    var methodName: string
    var remoteFieldMap: FieldMaps

    /** `NewRemoteMethod` */
    constructor (endpoint: string, name: string)
      ensures this.endpoint == endpoint && methodName == name && remoteFieldMap == map[]
    {
      this.endpoint := endpoint;
      methodName := name;
      remoteFieldMap := map[];
    }

    /** `SendXML`: the prolog, the method name as given, and one
        `<param><value>` per parameter, in order. Only `out` changes. */
    method SendXML(h: Host, out: Writer, params: seq<ParamValue>)
      requires forall i | 0 <= i < |params| :: Encodable(params[i])
      modifies out
      ensures out.written == old(out.written) + Render(RequestTokens(h, methodName, params))
    {
      ghost var w := out.written;
      out.WriteString("<?xml version=\"1.0\"?>\n");
      out.WriteString("<methodCall>");
      out.WriteString("<methodName>" + methodName + "</methodName>");
      out.WriteString("<params>");
      HeadText(w, methodName);
      WriteParams(h, out, params);
      out.WriteString("</params>");
      out.WriteString("</methodCall>");
      RequestText(h, methodName, params);
      TailText(w, RequestHead(methodName), Render(ParamListTokens(h, params)));
    }

    /** `RegisterFieldMap`: creates the map for `typeName` if it has none,
        then copies every pair of `mapping` into it; the maps of other
        types are unchanged. */
    method RegisterFieldMap(typeName: string, mapping: map<string, string>)
      modifies this
      ensures endpoint == old(endpoint) && methodName == old(methodName)
      ensures remoteFieldMap == old(remoteFieldMap)[typeName := Registered(old(remoteFieldMap), typeName, mapping)]
    {
      ghost var base := if typeName in remoteFieldMap then remoteFieldMap[typeName] else map[];
      if typeName !in remoteFieldMap {
        remoteFieldMap := remoteFieldMap[typeName := map[]];
      }
      var keys := mapping.Keys;
      CopiedNone(base, mapping);
      while keys != {}
        invariant keys <= mapping.Keys
        invariant endpoint == old(endpoint) && methodName == old(methodName)
        invariant remoteFieldMap == old(remoteFieldMap)[typeName := base + (mapping - keys)]
        decreases keys
      {
        var k :| k in keys;
        CopiedOneMore(base, mapping, keys, k);
        remoteFieldMap := remoteFieldMap[typeName := remoteFieldMap[typeName][k := mapping[k]]];
        keys := keys - {k};
      }
      assert mapping - keys == mapping;
    }

    /** `params`: one converted value per argument, in argument order. */
    method Params(args: seq<HostValue>) returns (par: seq<ParamValue>)
      ensures par == ConvertAll(remoteFieldMap, args)
    {
      var a := new ParamValue[|args|](_ => Nil);
      for n := 0 to a.Length
        invariant a[..n] == ConvertAll(remoteFieldMap, args[..n])
      {
        var x := Param(remoteFieldMap, args[n]);
        a[n] := x;
        ConvertAllStep(remoteFieldMap, args, n);
      }
      assert args[..a.Length] == args;
      return a[..];
    }
  }

  /** The loop of `SendXML`: `<param><value>`, the value's XML and
      `</value></param>` for each parameter in turn. */
  method WriteParams(h: Host, out: Writer, params: seq<ParamValue>)
    requires forall i | 0 <= i < |params| :: Encodable(params[i])
    modifies out
    ensures out.written == old(out.written) + Render(ParamListTokens(h, params))
  {
    assert params[..0] == [];
    assert out.written + "" == out.written;
    for i := 0 to |params|
      invariant out.written == old(out.written) + Render(ParamListTokens(h, params[..i]))
    {
      out.WriteString("<param><value>");
      var x := ToXML(h, params[i]);
      out.WriteString(x);
      out.WriteString("</value></param>");
      ParamStep(old(out.written), h, params, i, x);
    }
    assert params[..|params|] == params;
  }

  lemma CopiedNone(base: map<string, string>, mapping: map<string, string>)
    ensures base + (mapping - mapping.Keys) == base
  {
    assert mapping - mapping.Keys == map[];
  }

  lemma CopiedOneMore(base: map<string, string>, mapping: map<string, string>, keys: set<string>, k: string)
    requires k in keys && keys <= mapping.Keys
    ensures base + (mapping - (keys - {k})) == (base + (mapping - keys))[k := mapping[k]]
  {
    assert mapping - (keys - {k}) == (mapping - keys)[k := mapping[k]];
  }

  lemma HeadText(w: string, name: string)
    ensures w + "<?xml version=\"1.0\"?>\n" + "<methodCall>" + ("<methodName>" + name + "</methodName>") + "<params>"
         == w + RequestHead(name)
  {
  }

  lemma TailText(w: string, head: string, body: string)
    ensures w + head + body + "</params>" + "</methodCall>" == w + (head + body + "</params>" + "</methodCall>")
  {
  }

  /** One parameter appended to the text of those before it. */
  lemma ParamStep(prefix: string, h: Host, ps: seq<ParamValue>, i: nat, x: string)
    requires i < |ps| && x == Render(ToTokens(h, ps[i]))
    ensures prefix + Render(ParamListTokens(h, ps[..i])) + "<param><value>" + x + "</value></param>"
         == prefix + Render(ParamListTokens(h, ps[..i + 1]))
  {
    assert ps[..i + 1][..i] == ps[..i];
    var one := ParamTokens(h, ps[i]);
    RenderAppend(ParamListTokens(h, ps[..i]), one);
    ParamText(ToTokens(h, ps[i]));
    ParamRegroup(prefix, Render(ParamListTokens(h, ps[..i])), "<param><value>", x, "</value></param>");
  }

  lemma ParamRegroup(p: string, r: string, a: string, x: string, b: string)
    ensures p + r + a + x + b == p + (r + (a + x + b))
  {
  }

  lemma ParamText(value: seq<Token>)
    ensures Render(Element("param", Element("value", value))) == "<param><value>" + Render(value) + "</value></param>"
  {
    assert "<param><value>" == StartTag("param") + StartTag("value");
    assert "</value></param>" == EndTag("value") + EndTag("param");
    RenderElement("value", value);
    RenderElement("param", Element("value", value));
    Encoding.NestRegroup(StartTag("param"), StartTag("value"), Render(value), EndTag("value"), EndTag("param"));
  }

  /** The text of a request: the method name is written verbatim, without
      escaping, and the parameters between `<params>` and `</params>`. */
  lemma RequestText(h: Host, name: string, ps: seq<ParamValue>)
    ensures Render(RequestTokens(h, name, ps))
         == RequestHead(name) + Render(ParamListTokens(h, ps)) + "</params>" + "</methodCall>"
  {
    RenderRequest(name, ParamListTokens(h, ps));
    RequestLiterals();
    RequestRegroup("<?xml version=\"1.0\"?>\n", StartTag("methodCall"), StartTag("methodName") + name + EndTag("methodName"),
                   StartTag("params"), Render(ParamListTokens(h, ps)), EndTag("params"), EndTag("methodCall"));
  }

  lemma RequestLiterals()
    ensures "<methodCall>" == StartTag("methodCall") && "</methodCall>" == EndTag("methodCall")
    ensures "<methodName>" == StartTag("methodName") && "</methodName>" == EndTag("methodName")
    ensures "<params>" == StartTag("params") && "</params>" == EndTag("params")
  {
  }

  lemma RequestRegroup(p: string, a: string, x: string, d: string, r: string, e: string, f: string)
    ensures p + (a + (x + (d + r + e)) + f) == p + a + x + d + r + e + f
  {
  }

  lemma RenderRequest(name: string, body: seq<Token>)
    ensures Render(Prolog + Element("methodCall", Element("methodName", Text(name)) + Element("params", body)))
         == "<?xml version=\"1.0\"?>\n" + (StartTag("methodCall")
            + ((StartTag("methodName") + name + EndTag("methodName")) + (StartTag("params") + Render(body) + EndTag("params")))
            + EndTag("methodCall"))
  {
    var n := Element("methodName", Text(name));
    var p := Element("params", body);
    RenderAppend(Prolog, Element("methodCall", n + p));
    PrologText();
    RenderElement("methodCall", n + p);
    RenderAppend(n, p);
    RenderElement("methodName", Text(name));
    RenderElement("params", body);
  }

  /** With no parameters the request still holds an empty `<params>`. */
  lemma NoParams(h: Host, name: string)
    ensures Render(RequestTokens(h, name, [])) == RequestHead(name) + "</params>" + "</methodCall>"
  {
    RequestText(h, name, []);
    assert RequestHead(name) + "" == RequestHead(name);
  }

  /** The arguments `params` converts can always be sent. */
  lemma ConvertedSendable(maps: FieldMaps, args: seq<HostValue>)
    ensures forall i | 0 <= i < |args| :: Encodable(ConvertAll(maps, args)[i])
  {
    ConvertAllElements(maps, args);
    forall i | 0 <= i < |args|
      ensures Encodable(ConvertAll(maps, args)[i])
    {
      ConvertEncodable(maps, args[i]);
    }
  }

  /** After registering `mapping` for a type, its struct fields are sent
      under the new wire names; other types keep theirs. */
  lemma RegisteredRenames(maps: FieldMaps, typeName: string, mapping: map<string, string>, t: string, field: string)
    ensures var after := maps[typeName := Registered(maps, typeName, mapping)];
      && (t == typeName && field in mapping ==> FieldKey(after, t, field) == mapping[field])
      && (t != typeName ==> FieldKey(after, t, field) == FieldKey(maps, t, field))
  {
  }

  /** A reader for the document `SendXML` writes, stricter than any the
      source has: `<methodCall>`, the method name, then one
      `<param><value>…</value></param>` per parameter until `</params>`,
      then `</methodCall>`. It states what a receiver gets back. */
  function ReadRequest(h: Host, toks: seq<Token>): Result<(string, seq<ParamValue>)> {
    var (t1, r1) :- Next(toks, false);
    if t1 != StartElement("methodCall") then Err(UnexpectedToken)
    else
      var (t2, r2) :- Next(r1, false);
      if t2 != StartElement("methodName") then Err(UnexpectedToken)
      else
        var (name, r3) :- ReadBody(r2);
        var (t4, r4) :- Next(r3, false);
        if t4 != StartElement("params") then Err(UnexpectedToken)
        else
          var (ps, r5) :- ReadParams(h, r4, []);
          var (t6, _) :- Next(r5, false);
          if t6 != EndElement("methodCall") then Err(UnexpectedToken)
          else Ok((name, ps))
  }

  /** The parameters up to `</params>`, appended to `acc` in order. */
  function ReadParams(h: Host, toks: seq<Token>, acc: seq<ParamValue>): Result<(seq<ParamValue>, seq<Token>)>
    decreases |toks|
  {
    var (t, r1) :- Next(toks, false);
    if t == EndElement("params") then Ok((acc, r1))
    else if t != StartElement("param") then Err(UnexpectedToken)
    else
      var (t2, r2) :- Next(r1, false);
      if t2 != StartElement("value") then Err(UnexpectedToken)
      else
        var (v, r3) :- Parse(h, r2);
        var (t4, r4) :- Next(r3, false);
        if t4 != EndElement("value") then Err(UnexpectedToken)
        else
          var (t5, r5) :- Next(r4, false);
          if t5 != EndElement("param") then Err(UnexpectedToken)
          else ReadParams(h, r5, acc + [v])
  }

  /** The parameter list read from its front: the first parameter, then the
      others. */
  lemma {:induction false} ParamListCons(h: Host, ps: seq<ParamValue>)
    requires ps != []
    ensures ParamListTokens(h, ps) == ParamTokens(h, ps[0]) + ParamListTokens(h, ps[1..])
    decreases |ps|
  {
    var n := |ps|;
    if n == 1 {
      assert ps[..0] == [] && ps[1..] == [];
      assert ParamListTokens(h, ps) == [] + ParamTokens(h, ps[0]);
      assert [] + ParamTokens(h, ps[0]) == ParamTokens(h, ps[0]) + [];
    } else {
      var init := ps[..n - 1];
      var others := ps[1..];
      ParamListCons(h, init);
      assert init[0] == ps[0] && init[1..] == others[..n - 2] && others[n - 2] == ps[n - 1];
      Concat3(ParamTokens(h, ps[0]), ParamListTokens(h, init[1..]), ParamTokens(h, ps[n - 1]));
    }
  }

  lemma Concat3<T>(a: seq<T>, b: seq<T>, c: seq<T>)
    ensures a + b + c == a + (b + c)
  {
  }

  lemma ParamTokensShape(h: Host, v: ParamValue, more: seq<Token>)
    ensures ParamTokens(h, v) + more
         == [StartElement("param")] + ([StartElement("value")] + (ToTokens(h, v) + ([EndElement("value")] + ([EndElement("param")] + more))))
  {
  }

  /** One parameter that round-trips is read back as itself. */
  lemma ReadOneParam(h: Host, v: ParamValue, more: seq<Token>, acc: seq<ParamValue>)
    requires Lawful(h) && RoundTrippable(v)
    ensures ReadParams(h, ParamTokens(h, v) + more, acc) == ReadParams(h, more, acc + [v])
  {
    var closing := [EndElement("value")] + ([EndElement("param")] + more);
    ParamTokensShape(h, v, more);
    Codec.NextHead(StartElement("param"), [StartElement("value")] + (ToTokens(h, v) + closing), false);
    Codec.NextHead(StartElement("value"), ToTokens(h, v) + closing, false);
    Codec.RoundTrip(h, v, closing);
    Codec.NextHead(EndElement("value"), [EndElement("param")] + more, false);
    Codec.NextHead(EndElement("param"), more, false);
  }

  /** The parameters `SendXML` writes, followed by `</params>`, are read
      back one per parameter, in order. */
  lemma {:induction false} ParamsRoundTrip(h: Host, ps: seq<ParamValue>, acc: seq<ParamValue>, tail: seq<Token>)
    requires Lawful(h)
    requires forall i | 0 <= i < |ps| :: RoundTrippable(ps[i])
    ensures ReadParams(h, ParamListTokens(h, ps) + ([EndElement("params")] + tail), acc) == Ok((acc + ps, tail))
    decreases |ps|
  {
    var after := [EndElement("params")] + tail;
    if ps == [] {
      assert ParamListTokens(h, ps) == [];
      assert [] + after == after;
      Codec.NextHead(EndElement("params"), tail, false);
      assert acc + ps == acc;
    } else {
      ParamListCons(h, ps);
      Concat3(ParamTokens(h, ps[0]), ParamListTokens(h, ps[1..]), after);
      ReadOneParam(h, ps[0], ParamListTokens(h, ps[1..]) + after, acc);
      ParamsRoundTrip(h, ps[1..], acc + [ps[0]], tail);
      Codec.AppendHead(acc, ps);
    }
  }

  lemma RequestTokensShape(name: string, body: seq<Token>, tail: seq<Token>)
    ensures Prolog + Element("methodCall", Element("methodName", Text(name)) + Element("params", body)) + tail
         == Prolog + ([StartElement("methodCall")] + ([StartElement("methodName")] + (Text(name) + [EndElement("methodName")]
            + ([StartElement("params")] + (body + ([EndElement("params")] + ([EndElement("methodCall")] + tail)))))))
  {
  }

  /** A request for a markup-free `name` with parameters that round-trip
      is read back as that name and those parameters, in order: one
      `<param>` per parameter. */
  lemma RequestRoundTrip(h: Host, name: string, ps: seq<ParamValue>, tail: seq<Token>)
    requires Lawful(h) && MarkupFree(name)
    requires forall i | 0 <= i < |ps| :: RoundTrippable(ps[i])
    ensures ReadRequest(h, RequestTokens(h, name, ps) + tail) == Ok((name, ps))
  {
    var close := [EndElement("methodCall")] + tail;
    var body := [StartElement("params")] + (ParamListTokens(h, ps) + ([EndElement("params")] + close));
    var afterCall := [StartElement("methodName")] + (Text(name) + [EndElement("methodName")] + body);
    RequestTokensShape(name, ParamListTokens(h, ps), tail);
    NextSkipsProlog([StartElement("methodCall")] + afterCall);
    Codec.NextHead(StartElement("methodCall"), afterCall, false);
    Codec.NextHead(StartElement("methodName"), Text(name) + [EndElement("methodName")] + body, false);
    ReadBodyText(name, "methodName", body);
    Codec.NextHead(StartElement("params"), ParamListTokens(h, ps) + ([EndElement("params")] + close), false);
    ParamsRoundTrip(h, ps, [], close);
    assert [] + ps == ps;
    Codec.NextHead(EndElement("methodCall"), tail, false);
  }
}
