/** Encoding of the value tree (the `ToXML` methods of xmlrpc/common.go).
    `ToTokens` is the token sequence a tokenizer reports for the text that
    `ToXML` writes, as long as every string and member name in the value is
    markup-free (`Values.MarkupFree`): the writers copy text verbatim and
    escape nothing. The `ToXML` method below builds that text the way the
    source does and is proved to write exactly `Render(ToTokens(h, v))`. */
module Encoding {
  import opened Values
  import opened Tokens
  import opened Numbers

  /** `<name>content</name>` */
  function Element(name: string, content: seq<Token>): seq<Token> {
    [StartElement(name)] + content + [EndElement(name)]
  }

  /** `<member><name>key</name><value>value</value></member>` */
  function MemberTokens(key: string, value: seq<Token>): seq<Token> {
    Element("member", Element("name", Text(key)) + Element("value", value))
  }

  /** `%v` of a Go `bool`. */
  function BooleanText(b: bool): string {
    if b then "true" else "false"
  }

  /** The members of a fault, as `Fault.ToXML` builds them. */
  function FaultStruct(f: Fault): map<string, ParamValue> {
    map["faultCode" := IntValue(f.faultCode), "faultString" := StringValue(f.faultString)]
  }

  /** The tokens of `v.ToXML()`. Go panics on a nil value, so `ToXML`
      requires `Encodable`; the tokens of nil are empty only to keep this
      function total. */
  function ToTokens(h: Host, v: ParamValue): seq<Token>
    decreases v, 1
  {
    match v
    case IntValue(i) => Element("int", Text(FormatInt(i)))
    case BooleanValue(b) => Element("boolean", Text(BooleanText(b)))
    case StringValue(s) => Element("string", Text(s))
    case DoubleValue(d) => Element("double", Text(h.formatFloat(d)))
    case DateTimeValue(_) => Element("dateTime.iso8601", Text("NOT IMPLEMENTED"))
    case Base64Value(b) => Element("base64", Text(h.encodeBase64(b)))
    case StructValue(m) => Element("struct", MembersTokens(h, m, h.memberOrder(m.Keys)))
    case ArrayValue(es) => Element("array", Element("data", ElemsTokens(h, es)))
    case FaultValue(f) => FaultTokens(h, f)
    case Nil => []
  }

  /** The members of `m` in the order `keys` visits them; a key that is not
      in `m` (which a lawful host never yields) contributes nothing. */
  function MembersTokens(h: Host, m: map<string, ParamValue>, keys: seq<string>): seq<Token>
    decreases StructValue(m), 0, |keys|
  {
    if keys == [] then []
    else
      (if keys[0] in m then MemberTokens(keys[0], ToTokens(h, m[keys[0]])) else [])
      + MembersTokens(h, m, keys[1..])
  }

  /** One `<value>` per element, in order. */
  function ElemsTokens(h: Host, es: seq<ParamValue>): seq<Token>
    decreases es
  {
    if es == [] then []
    else Element("value", ToTokens(h, es[0])) + ElemsTokens(h, es[1..])
  }

  /** `Fault.ToXML`: the struct of `FaultStruct(f)`, written member by member
      (its two members are leaves). */
  function FaultTokens(h: Host, f: Fault): seq<Token> {
    Element("struct", FaultMembersTokens(f, h.memberOrder(FaultStruct(f).Keys)))
  }

  function FaultMembersTokens(f: Fault, keys: seq<string>): seq<Token> {
    if keys == [] then []
    else
      (if keys[0] == "faultCode" then MemberTokens("faultCode", Element("int", Text(FormatInt(f.faultCode))))
       else if keys[0] == "faultString" then MemberTokens("faultString", Element("string", Text(f.faultString)))
       else [])
      + FaultMembersTokens(f, keys[1..])
  }

  /** A fault is written exactly as the struct holding its two members. */
  lemma {:induction false} FaultTokensAreStructTokens(h: Host, f: Fault)
    ensures ToTokens(h, FaultValue(f)) == ToTokens(h, StructValue(FaultStruct(f)))
  {
    var m := FaultStruct(f);
    FaultMembersAreMembers(h, f, h.memberOrder(m.Keys));
  }

  lemma {:induction false} FaultMembersAreMembers(h: Host, f: Fault, keys: seq<string>)
    ensures FaultMembersTokens(f, keys) == MembersTokens(h, FaultStruct(f), keys)
  {
    if keys != [] {
      FaultMembersAreMembers(h, f, keys[1..]);
    }
  }

  /** Appending one key at the end appends its member. */
  lemma {:induction false} MembersTokensSnoc(h: Host, m: map<string, ParamValue>, keys: seq<string>, k: string)
    ensures MembersTokens(h, m, keys + [k]) ==
      MembersTokens(h, m, keys) + (if k in m then MemberTokens(k, ToTokens(h, m[k])) else [])
  {
    if keys == [] {
      assert [] + [k] == [k];
    } else {
      assert (keys + [k])[1..] == keys[1..] + [k];
      MembersTokensSnoc(h, m, keys[1..], k);
    }
  }

  lemma {:induction false} ElemsTokensSnoc(h: Host, es: seq<ParamValue>, e: ParamValue)
    ensures ElemsTokens(h, es + [e]) == ElemsTokens(h, es) + Element("value", ToTokens(h, e))
  {
    if es == [] {
      assert [] + [e] == [e];
    } else {
      assert (es + [e])[1..] == es[1..] + [e];
      ElemsTokensSnoc(h, es[1..], e);
    }
  }

  lemma RenderElement(name: string, content: seq<Token>)
    ensures Render(Element(name, content)) == StartTag(name) + Render(content) + EndTag(name)
  {
    RenderAppend([StartElement(name)] + content, [EndElement(name)]);
    RenderAppend([StartElement(name)], content);
    RenderOne(StartElement(name));
    RenderOne(EndElement(name));
  }

  lemma RenderMember(key: string, value: seq<Token>)
    ensures Render(MemberTokens(key, value)) ==
      StartTag("member") +
        ((StartTag("name") + key + EndTag("name")) + (StartTag("value") + Render(value) + EndTag("value"))) +
      EndTag("member")
  {
    var n := Element("name", Text(key));
    var v := Element("value", value);
    RenderElement("name", Text(key));
    RenderElement("value", value);
    RenderAppend(n, v);
    RenderElement("member", n + v);
  }

  /** The literal fragments the source writes, split into tags. */
  lemma MemberLiterals()
    ensures "<member><name>" == StartTag("member") + StartTag("name")
    ensures "</name><value>" == EndTag("name") + StartTag("value")
    ensures "</value></member>" == EndTag("value") + EndTag("member")
  {
  }

  /** Regrouping of the member fragment: the literal pieces straddle the
      element boundaries. */
  lemma MemberRegroup(a: string, b: string, key: string, c: string, d: string, r: string, e: string, f: string)
    ensures (a + b) + key + (c + d) + r + (e + f) == a + ((b + key + c) + (d + r + e)) + f
  {
  }

  lemma MemberText(key: string, value: seq<Token>)
    ensures "<member><name>" + key + "</name><value>" + Render(value) + "</value></member>"
         == Render(MemberTokens(key, value))
  {
    MemberLiterals();
    RenderMember(key, value);
    MemberRegroup(StartTag("member"), StartTag("name"), key, EndTag("name"), StartTag("value"),
                  Render(value), EndTag("value"), EndTag("member"));
  }

  /** The text of an element, with its tags spelled as literals. */
  lemma ElementText(name: string, open: string, close: string, content: seq<Token>)
    requires open == StartTag(name) && close == EndTag(name)
    ensures open + Render(content) + close == Render(Element(name, content))
  {
    RenderElement(name, content);
  }

  lemma ArrayText(elems: seq<Token>)
    ensures "<array><data>" + Render(elems) + "</data></array>"
         == Render(Element("array", Element("data", elems)))
  {
    assert "<array><data>" == StartTag("array") + StartTag("data");
    assert "</data></array>" == EndTag("data") + EndTag("array");
    RenderElement("data", elems);
    RenderElement("array", Element("data", elems));
    NestRegroup(StartTag("array"), StartTag("data"), Render(elems), EndTag("data"), EndTag("array"));
  }

  lemma NestRegroup(a: string, b: string, r: string, c: string, d: string)
    ensures (a + b) + r + (c + d) == a + (b + r + c) + d
  {
  }

  lemma Assoc3(a: string, b: string, c: string)
    ensures a + b + c == a + (b + c)
  {
  }

  /** The text of each leaf, as its `ToXML` formats it. */
  lemma IntText(h: Host, i: int32)
    ensures "<int>" + FormatInt(i) + "</int>" == Render(ToTokens(h, IntValue(i)))
  {
    assert "<int>" == StartTag("int") && "</int>" == EndTag("int");
    RenderElement("int", Text(FormatInt(i)));
  }

  lemma BooleanXMLText(h: Host, b: bool)
    ensures "<boolean>" + BooleanText(b) + "</boolean>" == Render(ToTokens(h, BooleanValue(b)))
  {
    assert "<boolean>" == StartTag("boolean") && "</boolean>" == EndTag("boolean");
    RenderElement("boolean", Text(BooleanText(b)));
  }

  lemma StringText(h: Host, str: string)
    ensures "<string>" + str + "</string>" == Render(ToTokens(h, StringValue(str)))
  {
    assert "<string>" == StartTag("string") && "</string>" == EndTag("string");
    RenderElement("string", Text(str));
  }

  lemma DoubleText(h: Host, d: Float)
    ensures "<double>" + h.formatFloat(d) + "</double>" == Render(ToTokens(h, DoubleValue(d)))
  {
    assert "<double>" == StartTag("double") && "</double>" == EndTag("double");
    RenderElement("double", Text(h.formatFloat(d)));
  }

  lemma DateTimeText(h: Host, t: Time)
    ensures "<dateTime.iso8601>" + "NOT IMPLEMENTED" + "</dateTime.iso8601>" == Render(ToTokens(h, DateTimeValue(t)))
  {
    assert "<dateTime.iso8601>" == StartTag("dateTime.iso8601");
    assert "</dateTime.iso8601>" == EndTag("dateTime.iso8601");
    RenderElement("dateTime.iso8601", Text("NOT IMPLEMENTED"));
  }

  lemma Base64Text(h: Host, b: seq<byte>)
    ensures "<base64>" + h.encodeBase64(b) + "</base64>" == Render(ToTokens(h, Base64Value(b)))
  {
    assert "<base64>" == StartTag("base64") && "</base64>" == EndTag("base64");
    RenderElement("base64", Text(h.encodeBase64(b)));
  }

  /** One turn of the `StructValue.ToXML` loop. */
  lemma StructStep(h: Host, m: map<string, ParamValue>, keys: seq<string>, i: nat, value: string)
    requires i < |keys| && keys[i] in m && value == Render(ToTokens(h, m[keys[i]]))
    ensures "<struct>" + Render(MembersTokens(h, m, keys[..i])) +
              ("<member><name>" + keys[i] + "</name><value>" + value + "</value></member>")
         == "<struct>" + Render(MembersTokens(h, m, keys[..i + 1]))
  {
    assert keys[..i + 1] == keys[..i] + [keys[i]];
    MembersTokensSnoc(h, m, keys[..i], keys[i]);
    AppendMemberText("<struct>", MembersTokens(h, m, keys[..i]), keys[i], ToTokens(h, m[keys[i]]), value);
  }

  /** Text appended after `prefix` and the text of `done`: one more
      `<member>` element. */
  lemma AppendMemberText(prefix: string, done: seq<Token>, key: string, content: seq<Token>, value: string)
    requires value == Render(content)
    ensures prefix + Render(done) + ("<member><name>" + key + "</name><value>" + value + "</value></member>")
         == prefix + Render(done + MemberTokens(key, content))
  {
    MemberText(key, content);
    RenderAppend(done, MemberTokens(key, content));
    Assoc3(prefix, Render(done), Render(MemberTokens(key, content)));
  }

  lemma StructSkip(h: Host, m: map<string, ParamValue>, keys: seq<string>, i: nat)
    requires i < |keys| && keys[i] !in m
    ensures MembersTokens(h, m, keys[..i + 1]) == MembersTokens(h, m, keys[..i])
  {
    assert keys[..i + 1] == keys[..i] + [keys[i]];
    MembersTokensSnoc(h, m, keys[..i], keys[i]);
    assert MembersTokens(h, m, keys[..i]) + [] == MembersTokens(h, m, keys[..i]);
  }

  /** The text after the last member of a struct. */
  lemma StructClose(h: Host, m: map<string, ParamValue>, s: string)
    requires s == "<struct>" + Render(MembersTokens(h, m, h.memberOrder(m.Keys)))
    ensures s + "</struct>" == Render(ToTokens(h, StructValue(m)))
  {
    ElementText("struct", "<struct>", "</struct>", MembersTokens(h, m, h.memberOrder(m.Keys)));
  }

  /** One turn of the `ArrayValue.ToXML` loop. */
  lemma ArrayStep(h: Host, es: seq<ParamValue>, i: nat, value: string)
    requires i < |es| && value == Render(ToTokens(h, es[i]))
    ensures "<array><data>" + Render(ElemsTokens(h, es[..i])) + ("<value>" + value + "</value>")
         == "<array><data>" + Render(ElemsTokens(h, es[..i + 1]))
  {
    assert es[..i + 1] == es[..i] + [es[i]];
    ElemsTokensSnoc(h, es[..i], es[i]);
    AppendValueText("<array><data>", ElemsTokens(h, es[..i]), ToTokens(h, es[i]), value);
  }

  /** Text appended after `prefix` and the text of `done`: one more
      `<value>` element. */
  lemma AppendValueText(prefix: string, done: seq<Token>, content: seq<Token>, value: string)
    requires value == Render(content)
    ensures prefix + Render(done) + ("<value>" + value + "</value>") == prefix + Render(done + Element("value", content))
  {
    ElementText("value", "<value>", "</value>", content);
    RenderAppend(done, Element("value", content));
    Assoc3(prefix, Render(done), Render(Element("value", content)));
  }

  /** The text after the last element of an array. */
  lemma ArrayClose(h: Host, es: seq<ParamValue>, s: string)
    requires s == "<array><data>" + Render(ElemsTokens(h, es))
    ensures s + "</data></array>" == Render(ToTokens(h, ArrayValue(es)))
  {
    ArrayText(ElemsTokens(h, es));
  }

  /** One turn of the loop `Fault.ToXML` runs through `StructValue.ToXML`. */
  lemma FaultStep(h: Host, f: Fault, keys: seq<string>, i: nat, value: string)
    requires i < |keys| && (keys[i] == "faultCode" || keys[i] == "faultString")
    requires value == FaultMemberText(f, keys[i])
    ensures "<struct>" + Render(FaultMembersTokens(f, keys[..i])) +
              ("<member><name>" + keys[i] + "</name><value>" + value + "</value></member>")
         == "<struct>" + Render(FaultMembersTokens(f, keys[..i + 1]))
  {
    var key := keys[i];
    FaultMemberValue(f, key);
    assert keys[..i + 1] == keys[..i] + [key];
    FaultMembersSnoc(f, keys[..i], key);
    FaultMemberOne(f, key);
    AppendMemberText("<struct>", FaultMembersTokens(f, keys[..i]), key, FaultContent(f, key), value);
  }

  /** The value element `Fault.ToXML` writes under each of its two keys. */
  function FaultContent(f: Fault, key: string): seq<Token> {
    if key == "faultCode" then Element("int", Text(FormatInt(f.faultCode)))
    else Element("string", Text(f.faultString))
  }

  /** Its text, as `IntValue.ToXML` and `StringValue.ToXML` write it. */
  function FaultMemberText(f: Fault, key: string): string {
    if key == "faultCode" then "<int>" + FormatInt(f.faultCode) + "</int>"
    else "<string>" + f.faultString + "</string>"
  }

  lemma FaultMemberValue(f: Fault, key: string)
    ensures FaultMemberText(f, key) == Render(FaultContent(f, key))
  {
    if key == "faultCode" {
      assert "<int>" == StartTag("int") && "</int>" == EndTag("int");
      RenderElement("int", Text(FormatInt(f.faultCode)));
    } else {
      assert "<string>" == StartTag("string") && "</string>" == EndTag("string");
      RenderElement("string", Text(f.faultString));
    }
  }

  lemma FaultMemberOne(f: Fault, key: string)
    requires key == "faultCode" || key == "faultString"
    ensures FaultMembersTokens(f, [key]) == MemberTokens(key, FaultContent(f, key))
  {
    assert [key][1..] == [];
    assert MemberTokens(key, FaultContent(f, key)) + [] == MemberTokens(key, FaultContent(f, key));
  }

  lemma FaultSkip(f: Fault, keys: seq<string>, i: nat)
    requires i < |keys| && keys[i] != "faultCode" && keys[i] != "faultString"
    ensures FaultMembersTokens(f, keys[..i + 1]) == FaultMembersTokens(f, keys[..i])
  {
    assert keys[..i + 1] == keys[..i] + [keys[i]];
    FaultMembersSnoc(f, keys[..i], keys[i]);
    assert [keys[i]][1..] == [];
    assert FaultMembersTokens(f, keys[..i]) + [] == FaultMembersTokens(f, keys[..i]);
  }

  /** The text after the last member of a fault. */
  lemma FaultClose(h: Host, f: Fault, s: string)
    requires s == "<struct>" + Render(FaultMembersTokens(f, h.memberOrder(FaultStruct(f).Keys)))
    ensures s + "</struct>" == Render(ToTokens(h, FaultValue(f)))
  {
    ElementText("struct", "<struct>", "</struct>", FaultMembersTokens(f, h.memberOrder(FaultStruct(f).Keys)));
  }

  /** The `ToXML` methods: each variant's text, built as the source builds
      it; containers append one fragment per member or element. */
  method ToXML(h: Host, v: ParamValue) returns (s: string)
    requires Encodable(v)
    ensures s == Render(ToTokens(h, v))
    decreases v, 1
  {
    match v {
      case IntValue(i) =>
        s := "<int>" + FormatInt(i) + "</int>";
        IntText(h, i);
      case BooleanValue(b) =>
        s := "<boolean>" + BooleanText(b) + "</boolean>";
        BooleanXMLText(h, b);
      case StringValue(str) =>
        s := "<string>" + str + "</string>";
        StringText(h, str);
      case DoubleValue(d) =>
        s := "<double>" + h.formatFloat(d) + "</double>";
        DoubleText(h, d);
      case DateTimeValue(t) =>
        s := "<dateTime.iso8601>" + "NOT IMPLEMENTED" + "</dateTime.iso8601>";
        DateTimeText(h, t);
      case Base64Value(b) =>
        s := "<base64>" + h.encodeBase64(b) + "</base64>";
        Base64Text(h, b);
      case StructValue(m) =>
        s := StructToXML(h, m);
      case ArrayValue(es) =>
        s := ArrayToXML(h, es);
      case FaultValue(f) =>
        s := FaultToXML(h, f);
    }
  }

  /** `StructValue.ToXML`: one member per key, in the host's visiting order. */
  method StructToXML(h: Host, m: map<string, ParamValue>) returns (s: string)
    requires forall k | k in m :: Encodable(m[k])
    ensures s == Render(ToTokens(h, StructValue(m)))
    decreases StructValue(m), 0
  {
    var keys := h.memberOrder(m.Keys);
    s := "<struct>";
    var i := 0;
    while i < |keys|
      invariant i <= |keys|
      invariant s == "<struct>" + Render(MembersTokens(h, m, keys[..i]))
    {
      var key := keys[i];
      if key in m {
        var value := ToXML(h, m[key]);
        StructStep(h, m, keys, i, value);
        s := s + ("<member><name>" + key + "</name><value>" + value + "</value></member>");
      } else {
        StructSkip(h, m, keys, i);
      }
      i := i + 1;
    }
    assert keys[..i] == keys;
    StructClose(h, m, s);
    s := s + "</struct>";
  }

  /** `ArrayValue.ToXML`: one `<value>` per element, in order. */
  method ArrayToXML(h: Host, es: seq<ParamValue>) returns (s: string)
    requires forall i | 0 <= i < |es| :: Encodable(es[i])
    ensures s == Render(ToTokens(h, ArrayValue(es)))
    decreases ArrayValue(es), 0
  {
    s := "<array><data>";
    var i := 0;
    while i < |es|
      invariant i <= |es|
      invariant s == "<array><data>" + Render(ElemsTokens(h, es[..i]))
    {
      var value := ToXML(h, es[i]);
      ArrayStep(h, es, i, value);
      s := s + ("<value>" + value + "</value>");
      i := i + 1;
    }
    assert es[..i] == es;
    ArrayClose(h, es, s);
    s := s + "</data></array>";
  }

  /** `Fault.ToXML`: the struct of its code and string, written member by
      member as `StructValue.ToXML` writes it (see `FaultTokensAreStructTokens`). */
  method FaultToXML(h: Host, f: Fault) returns (s: string)
    ensures s == Render(ToTokens(h, FaultValue(f)))
  {
    var keys := h.memberOrder(FaultStruct(f).Keys);
    s := "<struct>";
    var i := 0;
    while i < |keys|
      invariant i <= |keys|
      invariant s == "<struct>" + Render(FaultMembersTokens(f, keys[..i]))
    {
      var key := keys[i];
      if key == "faultCode" || key == "faultString" {
        var value := FaultMemberText(f, key);
        FaultStep(h, f, keys, i, value);
        s := s + ("<member><name>" + key + "</name><value>" + value + "</value></member>");
      } else {
        FaultSkip(f, keys, i);
      }
      i := i + 1;
    }
    assert keys[..i] == keys;
    FaultClose(h, f, s);
    s := s + "</struct>";
  }

  lemma {:induction false} FaultMembersSnoc(f: Fault, keys: seq<string>, k: string)
    ensures FaultMembersTokens(f, keys + [k]) == FaultMembersTokens(f, keys) + FaultMembersTokens(f, [k])
  {
    if keys == [] {
      assert [] + [k] == [k];
    } else {
      assert (keys + [k])[1..] == keys[1..] + [k];
      FaultMembersSnoc(f, keys[1..], k);
    }
  }
}
