/** What the encoder and the decoder of xmlrpc/common.go promise each
    other, stated on token sequences: decoding the tokens of an encoded
    value gives the value back (for the variants that survive the trip),
    and the documented exceptions — booleans, date-times, faults, unescaped
    markup — behave as the source makes them behave. */
module Codec {
  import opened Values
  import opened Tokens
  import opened Numbers
  import opened Encoding
  import opened Decoding

  /** A lower-case name is its own lower-case form. */
  lemma LowerOfLowercase(s: string)
    requires forall i | 0 <= i < |s| :: LowerChar(s[i]) == s[i]
    ensures Lower(s) == s
  {
  }

  /** The lower-case forms of the tag names the decoder compares against. */
  lemma TagNames()
    ensures Lower("int") == "int" && Lower("i4") == "i4" && Lower("boolean") == "boolean"
    ensures Lower("string") == "string" && Lower("double") == "double" && Lower("base64") == "base64"
    ensures Lower("struct") == "struct" && Lower("array") == "array" && Lower("fault") == "fault"
    ensures Lower("I4") == "i4" && Lower("INT") == "int" && Lower("STRUCT") == "struct"
  {
    assert Lower("I4") == "i4";
    assert Lower("INT") == "int";
    assert Lower("STRUCT") == "struct";
    LowerOfLowercase("int");
    LowerOfLowercase("i4");
    LowerOfLowercase("boolean");
    LowerOfLowercase("string");
    LowerOfLowercase("double");
    LowerOfLowercase("base64");
    LowerOfLowercase("struct");
    LowerOfLowercase("array");
    LowerOfLowercase("fault");
  }

  /** The date-time tag is matched after lower-casing. */
  lemma DateTimeTag()
    ensures Lower("dateTime.iso8601") == "datetime.iso8601"
  {
  }

  /** The `switch` of `parseMessage`, one case per lemma. */
  lemma DispatchInt(h: Host, name: string, rest: seq<Token>)
    requires Lower(name) == "int" || Lower(name) == "i4"
    ensures Dispatch(h, name, rest) == LoadInt(rest)
  {
  }

  lemma DispatchBoolean(h: Host, name: string, rest: seq<Token>)
    requires Lower(name) == "boolean"
    ensures Dispatch(h, name, rest) == LoadBoolean(rest)
  {
  }

  lemma DispatchString(h: Host, name: string, rest: seq<Token>)
    requires Lower(name) == "string"
    ensures Dispatch(h, name, rest) == LoadString(rest)
  {
  }

  lemma DispatchDouble(h: Host, name: string, rest: seq<Token>)
    requires Lower(name) == "double"
    ensures Dispatch(h, name, rest) == LoadDouble(h, rest)
  {
  }

  lemma DispatchDateTime(h: Host, name: string, rest: seq<Token>)
    requires Lower(name) == "datetime.iso8601"
    ensures Dispatch(h, name, rest) == Err(DateNotImplemented)
  {
  }

  lemma DispatchBase64(h: Host, name: string, rest: seq<Token>)
    requires Lower(name) == "base64"
    ensures Dispatch(h, name, rest) == LoadBase64(h, rest)
  {
  }

  lemma DispatchStruct(h: Host, name: string, rest: seq<Token>)
    requires Lower(name) == "struct"
    ensures Dispatch(h, name, rest) == LoadStruct(h, rest, map[])
  {
  }

  lemma DispatchFault(h: Host, name: string, rest: seq<Token>)
    requires Lower(name) == "fault"
    ensures Dispatch(h, name, rest) == LoadFault(h, rest)
  {
  }

  lemma DispatchArray(h: Host, name: string, rest: seq<Token>)
    requires Lower(name) == "array"
    ensures Dispatch(h, name, rest) == LoadArray(h, rest)
  {
    assert Lower(name)[0] == 'a' != "fault"[0];
  }

  /** `parseMessage` on a start tag hands its name to the dispatch. */
  lemma ParseStart(h: Host, name: string, rest: seq<Token>)
    ensures Parse(h, [StartElement(name)] + rest) == Dispatch(h, name, rest)
  {
    NextHead(StartElement(name), rest, false);
  }

  lemma NextHead(t: Token, rest: seq<Token>, allowChar: bool)
    requires Significant(t, allowChar)
    ensures Next([t] + rest, allowChar) == Ok((t, rest))
  {
    assert ([t] + rest)[1..] == rest;
  }

  /** An element holding text, followed by `tail`: its opening tag comes
      first, and `readBody` on what follows gives the text and `tail`. */
  lemma LeafTokens(name: string, s: string, tail: seq<Token>)
    ensures Element(name, Text(s)) + tail == [StartElement(name)] + (Text(s) + [EndElement(name)] + tail)
    ensures Next(Element(name, Text(s)) + tail, false) == Ok((StartElement(name), Text(s) + [EndElement(name)] + tail))
    ensures ReadBody(Text(s) + [EndElement(name)] + tail) == Ok((s, tail))
  {
    assert Element(name, Text(s)) + tail == [StartElement(name)] + (Text(s) + [EndElement(name)] + tail);
    NextHead(StartElement(name), Text(s) + [EndElement(name)] + tail, false);
    ReadBodyText(s, name, tail);
  }

  /** The result of storing, in order, the value `m` holds under each of
      `keys` into `acc`: later keys overwrite earlier ones. */
  function Stored(acc: map<string, ParamValue>, m: map<string, ParamValue>, keys: seq<string>): map<string, ParamValue>
    requires forall i | 0 <= i < |keys| :: keys[i] in m
    decreases |keys|
  {
    if keys == [] then acc else Stored(acc[keys[0] := m[keys[0]]], m, keys[1..])
  }

  lemma {:induction false} StoredContents(acc: map<string, ParamValue>, m: map<string, ParamValue>, keys: seq<string>)
    requires forall i | 0 <= i < |keys| :: keys[i] in m
    ensures forall k :: k in Stored(acc, m, keys) <==> k in acc || k in keys
    ensures forall k | k in keys :: Stored(acc, m, keys)[k] == m[k]
    ensures forall k | k in acc && k !in keys :: Stored(acc, m, keys)[k] == acc[k]
    decreases |keys|
  {
    if keys != [] {
      StoredContents(acc[keys[0] := m[keys[0]]], m, keys[1..]);
      forall k | k in keys
        ensures k == keys[0] || k in keys[1..]
      {
        var i :| 0 <= i < |keys| && keys[i] == k;
        if i > 0 {
          assert keys[1..][i - 1] == k;
        }
      }
    }
  }

  /** A `<name>` field sets the key. */
  lemma FieldsName(h: Host, key: string, after: seq<Token>, count: nat, name: string, value: ParamValue)
    ensures Fields(h, [StartElement("name")] + (Text(key) + [EndElement("name")] + after), count + 1, name, value)
         == Fields(h, after, count, key, value)
  {
    NextHead(StartElement("name"), Text(key) + [EndElement("name")] + after, false);
    ReadBodyText(key, "name", after);
  }

  /** A `<value>` field sets the value and skips the token after it. */
  lemma FieldsValue(h: Host, vt: seq<Token>, v: ParamValue, after: seq<Token>, count: nat, name: string, value: ParamValue)
    requires Parse(h, vt + ([EndElement("value")] + after)) == Ok((v, [EndElement("value")] + after))
    ensures Fields(h, [StartElement("value")] + (vt + ([EndElement("value")] + after)), count + 1, name, value)
         == Fields(h, after, count, name, v)
  {
    NextHead(StartElement("value"), vt + ([EndElement("value")] + after), false);
    NextHead(EndElement("value"), after, false);
  }

  /** The tokens of a member, nested to the right. */
  lemma MemberTokensShape(key: string, vt: seq<Token>, more: seq<Token>)
    ensures MemberTokens(key, vt) + more ==
      [StartElement("member")] + ([StartElement("name")] + (Text(key) + [EndElement("name")] +
        ([StartElement("value")] + (vt + ([EndElement("value")] + ([EndElement("member")] + more))))))
  {
  }

  /** Storing every key of `m` into an empty map gives `m`. */
  lemma StoredAll(m: map<string, ParamValue>, keys: seq<string>)
    requires forall k :: k in keys <==> k in m
    ensures Stored(map[], m, keys) == m
  {
    StoredContents(map[], m, keys);
  }

  /** Decoding one encoded struct member stores its value under its name
      and continues with the next member. */
  lemma DecodeMember(h: Host, key: string, vt: seq<Token>, v: ParamValue, more: seq<Token>, acc: map<string, ParamValue>)
    requires Parse(h, vt + ([EndElement("value")] + ([EndElement("member")] + more)))
          == Ok((v, [EndElement("value")] + ([EndElement("member")] + more)))
    ensures LoadStruct(h, MemberTokens(key, vt) + more, acc) == LoadStruct(h, more, acc[key := v])
  {
    var closing := [EndElement("member")] + more;
    var afterName := [StartElement("value")] + (vt + ([EndElement("value")] + closing));
    var afterMember := [StartElement("name")] + (Text(key) + [EndElement("name")] + afterName);
    MemberTokensShape(key, vt, more);
    NextHead(StartElement("member"), afterMember, false);
    FieldsName(h, key, afterName, 1, "", Nil);
    FieldsValue(h, vt, v, closing, 0, key, Nil);
    NextHead(EndElement("member"), more, false);
  }

  /** `</struct>`, in any case, ends the struct. */
  lemma StructEnd(h: Host, name: string, tail: seq<Token>, acc: map<string, ParamValue>)
    requires Lower(name) == "struct"
    ensures LoadStruct(h, [EndElement(name)] + tail, acc) == Ok((StructValue(acc), tail))
  {
    NextHead(EndElement(name), tail, false);
  }

  /** Decoding one encoded array element appends it and continues. */
  lemma DecodeElem(h: Host, vt: seq<Token>, v: ParamValue, more: seq<Token>, acc: seq<ParamValue>)
    requires Parse(h, vt + ([EndElement("value")] + more)) == Ok((v, [EndElement("value")] + more))
    ensures LoadElems(h, Element("value", vt) + more, acc) == LoadElems(h, more, acc + [v])
  {
    assert Element("value", vt) + more == [StartElement("value")] + (vt + ([EndElement("value")] + more));
    NextHead(StartElement("value"), vt + ([EndElement("value")] + more), false);
    NextHead(EndElement("value"), more, false);
  }

  /** An element holding text, followed by `tail`, is dispatched on its
      tag with the text and the end tag still to read. */
  lemma ParseLeaf(h: Host, name: string, s: string, tail: seq<Token>)
    ensures Parse(h, Element(name, Text(s)) + tail) == Dispatch(h, name, Text(s) + [EndElement(name)] + tail)
    ensures ReadBody(Text(s) + [EndElement(name)] + tail) == Ok((s, tail))
  {
    LeafTokens(name, s, tail);
    ParseStart(h, name, Text(s) + [EndElement(name)] + tail);
  }

  lemma IntRoundTrip(h: Host, i: int32, tail: seq<Token>)
    ensures Parse(h, ToTokens(h, IntValue(i)) + tail) == Ok((IntValue(i), tail))
  {
    ParseLeaf(h, "int", FormatInt(i), tail);
    TagNames();
    DispatchInt(h, "int", Text(FormatInt(i)) + [EndElement("int")] + tail);
    AtoiFormatInt(i);
  }

  lemma StringRoundTrip(h: Host, s: string, tail: seq<Token>)
    requires MarkupFree(s)
    ensures Parse(h, ToTokens(h, StringValue(s)) + tail) == Ok((StringValue(s), tail))
  {
    ParseLeaf(h, "string", s, tail);
    TagNames();
    DispatchString(h, "string", Text(s) + [EndElement("string")] + tail);
  }

  lemma DoubleRoundTrip(h: Host, d: Float, tail: seq<Token>)
    requires Lawful(h) && !IsNaN(d)
    ensures Parse(h, ToTokens(h, DoubleValue(d)) + tail) == Ok((DoubleValue(d), tail))
  {
    ParseLeaf(h, "double", h.formatFloat(d), tail);
    TagNames();
    DispatchDouble(h, "double", Text(h.formatFloat(d)) + [EndElement("double")] + tail);
  }

  lemma Base64RoundTrip(h: Host, b: seq<byte>, tail: seq<Token>)
    requires Lawful(h)
    ensures Parse(h, ToTokens(h, Base64Value(b)) + tail) == Ok((Base64Value(b), tail))
  {
    ParseLeaf(h, "base64", h.encodeBase64(b), tail);
    TagNames();
    DispatchBase64(h, "base64", Text(h.encodeBase64(b)) + [EndElement("base64")] + tail);
  }

  /** Encoding then decoding gives back the value, and decoding stops right
      after it. */
  lemma {:induction false} RoundTrip(h: Host, v: ParamValue, tail: seq<Token>)
    requires Lawful(h) && RoundTrippable(v)
    ensures Parse(h, ToTokens(h, v) + tail) == Ok((v, tail))
    decreases v, 2
  {
    match v {
      case IntValue(i) => IntRoundTrip(h, i, tail);
      case StringValue(s) => StringRoundTrip(h, s, tail);
      case DoubleValue(d) => DoubleRoundTrip(h, d, tail);
      case Base64Value(b) => Base64RoundTrip(h, b, tail);
      case StructValue(m) => StructRoundTrip(h, m, tail);
      case ArrayValue(es) => ArrayRoundTrip(h, es, tail);
    }
  }

  lemma {:induction false} StructRoundTrip(h: Host, m: map<string, ParamValue>, tail: seq<Token>)
    requires Lawful(h)
    requires forall k | k in m :: MarkupFree(k) && RoundTrippable(m[k])
    ensures Parse(h, ToTokens(h, StructValue(m)) + tail) == Ok((StructValue(m), tail))
    decreases StructValue(m), 1
  {
    var keys := h.memberOrder(m.Keys);
    var body := MembersTokens(h, m, keys) + ([EndElement("struct")] + tail);
    StructTokensShape(h, m, tail);
    ParseStruct(h, body);
    assert forall i | 0 <= i < |keys| :: keys[i] in m;
    MembersRoundTrip(h, m, keys, map[], tail);
    StoredAll(m, keys);
  }

  lemma StructTokensShape(h: Host, m: map<string, ParamValue>, tail: seq<Token>)
    ensures ToTokens(h, StructValue(m)) + tail
         == [StartElement("struct")] + (MembersTokens(h, m, h.memberOrder(m.Keys)) + ([EndElement("struct")] + tail))
  {
  }

  /** `<struct>` starts the struct loader with no members yet. */
  lemma ParseStruct(h: Host, body: seq<Token>)
    ensures Parse(h, [StartElement("struct")] + body) == LoadStruct(h, body, map[])
  {
    ParseStart(h, "struct", body);
    TagNames();
    DispatchStruct(h, "struct", body);
  }

  lemma {:induction false} ArrayRoundTrip(h: Host, es: seq<ParamValue>, tail: seq<Token>)
    requires Lawful(h)
    requires forall i | 0 <= i < |es| :: RoundTrippable(es[i])
    ensures Parse(h, ToTokens(h, ArrayValue(es)) + tail) == Ok((ArrayValue(es), tail))
    decreases ArrayValue(es), 1
  {
    var body := ElemsTokens(h, es) + ([EndElement("data"), EndElement("array")] + tail);
    ArrayTokensShape(h, es, tail);
    ParseArray(h, body);
    ElemsRoundTrip(h, es, [], tail);
    assert [] + es == es;
  }

  /** `<array>` and the token after it start the element loop with no
      elements yet. */
  lemma ParseArray(h: Host, body: seq<Token>)
    ensures Parse(h, [StartElement("array")] + ([StartElement("data")] + body)) == LoadElems(h, body, [])
  {
    ParseStart(h, "array", [StartElement("data")] + body);
    TagNames();
    DispatchArray(h, "array", [StartElement("data")] + body);
    NextHead(StartElement("data"), body, false);
  }

  lemma MembersTokensShape(h: Host, m: map<string, ParamValue>, keys: seq<string>, after: seq<Token>)
    requires keys != [] && keys[0] in m
    ensures MembersTokens(h, m, keys) + after
         == MemberTokens(keys[0], ToTokens(h, m[keys[0]])) + (MembersTokens(h, m, keys[1..]) + after)
  {
  }

  /** The members of a struct, written in the order `keys` visits them and
      followed by `</struct>`, decode to `acc` updated key by key. */
  lemma {:induction false} MembersRoundTrip(h: Host, m: map<string, ParamValue>, keys: seq<string>,
                                            acc: map<string, ParamValue>, tail: seq<Token>)
    requires Lawful(h)
    requires forall k | k in m :: MarkupFree(k) && RoundTrippable(m[k])
    requires forall i | 0 <= i < |keys| :: keys[i] in m
    ensures LoadStruct(h, MembersTokens(h, m, keys) + ([EndElement("struct")] + tail), acc)
         == Ok((StructValue(Stored(acc, m, keys)), tail))
    decreases StructValue(m), 0, |keys|
  {
    if keys == [] {
      assert MembersTokens(h, m, keys) + ([EndElement("struct")] + tail) == [EndElement("struct")] + tail;
      StructEnd(h, "struct", tail, acc);
    } else {
      var k := keys[0];
      var vt := ToTokens(h, m[k]);
      var more := MembersTokens(h, m, keys[1..]) + ([EndElement("struct")] + tail);
      MembersTokensShape(h, m, keys, [EndElement("struct")] + tail);
      RoundTrip(h, m[k], [EndElement("value")] + ([EndElement("member")] + more));
      DecodeMember(h, k, vt, m[k], more, acc);
      MembersRoundTrip(h, m, keys[1..], acc[k := m[k]], tail);
    }
  }

  lemma ArrayTokensShape(h: Host, es: seq<ParamValue>, tail: seq<Token>)
    ensures ToTokens(h, ArrayValue(es)) + tail
         == [StartElement("array")] + ([StartElement("data")] + (ElemsTokens(h, es) + ([EndElement("data"), EndElement("array")] + tail)))
  {
  }

  lemma AppendHead(acc: seq<ParamValue>, es: seq<ParamValue>)
    requires es != []
    ensures acc + [es[0]] + es[1..] == acc + es
  {
    assert es == [es[0]] + es[1..];
  }

  lemma ElemsTokensShape(h: Host, es: seq<ParamValue>, after: seq<Token>)
    requires es != []
    ensures ElemsTokens(h, es) + after == Element("value", ToTokens(h, es[0])) + (ElemsTokens(h, es[1..]) + after)
  {
  }

  /** The elements of an array followed by `</data></array>` decode to
      `acc` extended by them, in order. */
  lemma {:induction false} ElemsRoundTrip(h: Host, es: seq<ParamValue>, acc: seq<ParamValue>, tail: seq<Token>)
    requires Lawful(h)
    requires forall i | 0 <= i < |es| :: RoundTrippable(es[i])
    ensures LoadElems(h, ElemsTokens(h, es) + ([EndElement("data"), EndElement("array")] + tail), acc)
         == Ok((ArrayValue(acc + es), tail))
    decreases es
  {
    if es == [] {
      assert ElemsTokens(h, es) + ([EndElement("data"), EndElement("array")] + tail)
          == [EndElement("data")] + ([EndElement("array")] + tail);
      NextHead(EndElement("data"), [EndElement("array")] + tail, false);
      NextHead(EndElement("array"), tail, false);
      assert acc + [] == acc;
    } else {
      var vt := ToTokens(h, es[0]);
      var more := ElemsTokens(h, es[1..]) + ([EndElement("data"), EndElement("array")] + tail);
      ElemsTokensShape(h, es, [EndElement("data"), EndElement("array")] + tail);
      RoundTrip(h, es[0], [EndElement("value")] + more);
      DecodeElem(h, vt, es[0], more, acc);
      ElemsRoundTrip(h, es[1..], acc + [es[0]], tail);
      AppendHead(acc, es);
    }
  }

  /** `ParseMessage` reads back what `ToXML` wrote. */
  lemma ParseMessageToTokens(h: Host, v: ParamValue)
    requires Lawful(h) && RoundTrippable(v)
    ensures ParseMessage(h, ToTokens(h, v)) == Ok(v)
  {
    RoundTrip(h, v, []);
    assert ToTokens(h, v) + [] == ToTokens(h, v);
  }

  /** `<int>4</int>` decodes to 4. */
  lemma ParseIntFour(h: Host)
    ensures ParseMessage(h, [StartElement("int"), CharData("4"), EndElement("int")]) == Ok(IntValue(4))
  {
    assert [StartElement("int"), CharData("4"), EndElement("int")] == ToTokens(h, IntValue(4)) + [];
    IntRoundTrip(h, 4, []);
  }

  /** A boolean is written as `true` or `false` but read only as `0` or
      `1`, so no boolean survives the trip. */
  lemma BooleanDoesNotRoundTrip(h: Host, b: bool, tail: seq<Token>)
    ensures Parse(h, ToTokens(h, BooleanValue(b)) + tail) == Err(BadBoolean(BooleanText(b)))
  {
    BooleanGrammar(h, BooleanText(b), tail);
  }

  /** The boolean grammar: `0` and `1` and nothing else. */
  lemma BooleanGrammar(h: Host, body: string, tail: seq<Token>)
    ensures Parse(h, Element("boolean", Text(body)) + tail) ==
      if body == "0" then Ok((BooleanValue(false), tail))
      else if body == "1" then Ok((BooleanValue(true), tail))
      else Err(BadBoolean(body))
  {
    ParseLeaf(h, "boolean", body, tail);
    TagNames();
    DispatchBoolean(h, "boolean", Text(body) + [EndElement("boolean")] + tail);
  }

  /** A date-time is written as a placeholder and never read. */
  lemma DateTimeNotImplemented(h: Host, t: Time, tail: seq<Token>)
    ensures Parse(h, ToTokens(h, DateTimeValue(t)) + tail) == Err(DateNotImplemented)
  {
    ParseLeaf(h, "dateTime.iso8601", "NOT IMPLEMENTED", tail);
    DateTimeTag();
    DispatchDateTime(h, "dateTime.iso8601", Text("NOT IMPLEMENTED") + [EndElement("dateTime.iso8601")] + tail);
  }

  /** A fault is written as a plain struct, so it reads back as that
      struct, not as a fault. */
  lemma FaultReadsAsStruct(h: Host, f: Fault, tail: seq<Token>)
    requires Lawful(h) && MarkupFree(f.faultString)
    ensures Parse(h, ToTokens(h, FaultValue(f)) + tail) == Ok((StructValue(FaultStruct(f)), tail))
  {
    FaultStructRoundTrippable(f);
    RoundTrip(h, StructValue(FaultStruct(f)), tail);
    FaultTokensAreStructTokens(h, f);
  }

  lemma FaultStructRoundTrippable(f: Fault)
    requires MarkupFree(f.faultString)
    ensures RoundTrippable(StructValue(FaultStruct(f)))
  {
  }

  /** The variant is chosen by the lower-cased tag: a tag that lower-cases
      to `int` or `i4`, such as `I4` or `INT`, parses exactly as `int`. */
  lemma IntTagsAnyCase(h: Host, name: string, s: string, tail: seq<Token>)
    requires Lower(name) == "int" || Lower(name) == "i4"
    ensures Parse(h, Element(name, Text(s)) + tail) == Parse(h, Element("int", Text(s)) + tail)
  {
    ParseLeaf(h, name, s, tail);
    ParseLeaf(h, "int", s, tail);
    TagNames();
    DispatchInt(h, name, Text(s) + [EndElement(name)] + tail);
    DispatchInt(h, "int", Text(s) + [EndElement("int")] + tail);
  }

  /** A tag outside the list is refused by name. */
  lemma UnknownTypeRejected(h: Host, name: string, rest: seq<Token>)
    requires Lower(name) !in {"int", "i4", "boolean", "string", "double", "datetime.iso8601",
                              "base64", "struct", "fault", "array"}
    ensures Parse(h, [StartElement(name)] + rest) == Err(UnknownType(name))
  {
    NextHead(StartElement(name), rest, false);
  }

  /** The first significant token must open an element. */
  lemma ParseNeedsStartTag(h: Host, name: string, rest: seq<Token>)
    ensures Parse(h, [EndElement(name)] + rest) == Err(UnexpectedSymbol)
  {
    NextHead(EndElement(name), rest, false);
  }

  /** A member whose name repeats an earlier one replaces it: two members
      under the same name leave only the second value. */
  lemma StructLastWriteWins(h: Host, key: string, t1: seq<Token>, v1: ParamValue, t2: seq<Token>, v2: ParamValue,
                            more: seq<Token>, acc: map<string, ParamValue>)
    requires Parse(h, t1 + ([EndElement("value")] + ([EndElement("member")] + (MemberTokens(key, t2) + more))))
          == Ok((v1, [EndElement("value")] + ([EndElement("member")] + (MemberTokens(key, t2) + more))))
    requires Parse(h, t2 + ([EndElement("value")] + ([EndElement("member")] + more)))
          == Ok((v2, [EndElement("value")] + ([EndElement("member")] + more)))
    ensures LoadStruct(h, MemberTokens(key, t1) + (MemberTokens(key, t2) + more), acc)
         == LoadStruct(h, more, acc[key := v2])
  {
    DecodeMember(h, key, t1, v1, MemberTokens(key, t2) + more, acc);
    DecodeMember(h, key, t2, v2, more, acc[key := v1]);
    assert acc[key := v1][key := v2] == acc[key := v2];
  }

  /** A fault decodes only from a struct with an int `faultCode` and a
      string `faultString`. */
  lemma FaultNeedsCodeAndString(h: Host, vt: seq<Token>, v: ParamValue, rest: seq<Token>)
    requires Parse(h, vt) == Ok((v, rest))
    ensures LoadFault(h, [StartElement("value")] + vt) ==
      if IsFaultStruct(v) then Ok((FaultValue(Fault(v.members["faultCode"].i, v.members["faultString"].s)), rest))
      else Err(InvalidFault)
  {
    NextHead(StartElement("value"), vt, false);
  }

  /** The text `ToXML` writes for a string is not escaped: a string that
      holds an element's markup renders exactly as that element nested in
      the string element. */
  lemma StringMarkupNotEscaped(h: Host, name: string, s: string)
    ensures Render(ToTokens(h, StringValue(StartTag(name) + s + EndTag(name))))
         == Render(Element("string", Element(name, Text(s))))
  {
    RenderElement("string", Text(StartTag(name) + s + EndTag(name)));
    RenderElement(name, Text(s));
    RenderElement("string", Element(name, Text(s)));
  }

  /** ... and a tokenizer reading that text back finds a start tag where
      `readBody` wants text, so the string does not decode. */
  lemma StringMarkupMisread(h: Host, name: string, s: string, tail: seq<Token>)
    ensures Parse(h, Element("string", Element(name, Text(s))) + tail) == Err(UnexpectedToken)
  {
    var after := Text(s) + [EndElement(name)] + ([EndElement("string")] + tail);
    var inner := [StartElement(name)] + after;
    assert Element("string", Element(name, Text(s))) + tail == [StartElement("string")] + inner;
    ParseStart(h, "string", inner);
    TagNames();
    DispatchString(h, "string", inner);
    NextHead(StartElement(name), after, true);
  }
}
