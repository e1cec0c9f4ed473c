/** The structural tokens the XML tokenizer hands to the codec, and the two
    primitives every decoder step reads them with: `tokenStream.next` and
    `readBody` (xmlrpc/common.go). The tokenizer itself is not modelled: a
    document is given as the token sequence it produces, and the end of that
    sequence is the tokenizer's end-of-input error. */
module Tokens {
  import opened Values

  /** `xml.Token`, reduced to what the codec looks at: local element names
      (no namespaces, no attributes) and text. */
  datatype Token =
    | StartElement(name: string)
    | EndElement(name: string)
    | CharData(text: string)
    | Comment(text: string)
    | ProcInst(target: string, inst: string)
    | Directive(text: string)

  /** The tokens `next(allowChar)` hands out; it skips all others. */
  predicate Significant(t: Token, allowChar: bool) {
    t.StartElement? || t.EndElement? || (allowChar && t.CharData?)
  }

  /** `tokenStream.next`: the first significant token and the tokens after
      it; comments, processing instructions, directives and (unless
      `allowChar`) character data are skipped. The end of the input is the
      tokenizer's error, passed on. */
  function Next(toks: seq<Token>, allowChar: bool): (r: Result<(Token, seq<Token>)>)
    ensures r.Ok? ==> |r.value.1| < |toks|
  {
    if toks == [] then Err(EndOfInput)
    else if Significant(toks[0], allowChar) then Ok((toks[0], toks[1..]))
    else Next(toks[1..], allowChar)
  }

  /** `next` hands out the first significant token and resumes right after
      it, having skipped only insignificant ones; it fails only when no
      significant token is left. */
  lemma {:induction false} NextFindsSignificant(toks: seq<Token>, allowChar: bool)
    ensures Next(toks, allowChar).Ok? ==>
      var (t, rest) := Next(toks, allowChar).value;
      var k := |toks| - |rest| - 1;
      && 0 <= k && toks[k] == t && rest == toks[k + 1..]
      && Significant(t, allowChar)
      && forall j | 0 <= j < k :: !Significant(toks[j], allowChar)
    ensures Next(toks, allowChar).Err? ==>
      Next(toks, allowChar).error == EndOfInput &&
      forall j | 0 <= j < |toks| :: !Significant(toks[j], allowChar)
  {
    if toks != [] && !Significant(toks[0], allowChar) {
      NextFindsSignificant(toks[1..], allowChar);
      var tail := toks[1..];
      if Next(tail, allowChar).Ok? {
        var (t, rest) := Next(tail, allowChar).value;
        var k := |tail| - |rest| - 1;
        assert tail[k + 1..] == toks[k + 2..];
        forall j | 0 <= j < k + 1
          ensures !Significant(toks[j], allowChar)
        {
          if j > 0 {
            assert toks[j] == tail[j - 1];
          }
        }
      } else {
        forall j | 0 <= j < |toks|
          ensures !Significant(toks[j], allowChar)
        {
          if j > 0 {
            assert toks[j] == tail[j - 1];
          }
        }
      }
    }
  }

  /** Consumes one significant token without looking at it, as the source
      does with a bare `p.next(false)`; when that call fails the stream has
      been read to its end. */
  function Skip(toks: seq<Token>): (rest: seq<Token>)
    ensures |rest| <= |toks|
  {
    match Next(toks, false)
    case Ok((_, rest)) => rest
    case Err(_) => []
  }

  /** `readBody`: the character data up to the next end tag, which is
      consumed; a start tag before it is an error. */
  function ReadBody(toks: seq<Token>): (r: Result<(string, seq<Token>)>)
    ensures r.Ok? ==> |r.value.1| < |toks|
    decreases |toks|
  {
    var (t, rest) :- Next(toks, true);
    match t
    case CharData(text) =>
      var (body, after) :- ReadBody(rest);
      Ok((text + body, after))
    case EndElement(_) => Ok(("", rest))
    case _ => Err(UnexpectedToken)
  }

  /** Index of the first start or end tag, or `|toks|` if there is none. */
  function FirstTag(toks: seq<Token>): (k: nat)
    ensures k <= |toks|
    ensures k < |toks| ==> toks[k].StartElement? || toks[k].EndElement?
    ensures forall j | 0 <= j < k :: !toks[j].StartElement? && !toks[j].EndElement?
  {
    if toks == [] || toks[0].StartElement? || toks[0].EndElement? then 0
    else 1 + FirstTag(toks[1..])
  }

  /** All character data of `toks`, concatenated in order. */
  function AllText(toks: seq<Token>): string {
    if toks == [] then ""
    else (if toks[0].CharData? then toks[0].text else "") + AllText(toks[1..])
  }

  /** What `readBody` should return, read off the tokens directly: the
      character data in front of the first tag when that tag is an end tag
      (which is consumed), `UnexpectedToken` when it is a start tag, and the
      end of the input when there is no tag at all. */
  function BodyBeforeEndTag(toks: seq<Token>): Result<(string, seq<Token>)> {
    var k := FirstTag(toks);
    if k == |toks| then Err(EndOfInput)
    else if toks[k].StartElement? then Err(UnexpectedToken)
    else Ok((AllText(toks[..k]), toks[k + 1..]))
  }

  lemma {:induction false} ReadBodyCollectsText(toks: seq<Token>)
    ensures ReadBody(toks) == BodyBeforeEndTag(toks)
  {
    if toks == [] || toks[0].StartElement? || toks[0].EndElement? {
      assert FirstTag(toks) == 0;
      if toks != [] {
        assert toks[..0] == [];
        assert Next(toks, true) == Ok((toks[0], toks[1..]));
      }
      return;
    }
    var tail := toks[1..];
    ReadBodyCollectsText(tail);
    BodyBeforeEndTagCons(toks);
    if toks[0].CharData? {
      assert Next(toks, true) == Ok((toks[0], tail));
      match ReadBody(tail)
      case Ok((body, after)) =>
        assert ReadBody(toks) == Ok((toks[0].text + body, after));
      case Err(e) =>
        assert ReadBody(toks) == Err(e);
    } else {
      assert Next(toks, true) == Next(tail, true);
      assert ReadBody(toks) == ReadBody(tail);
      match ReadBody(tail)
      case Ok((body, after)) =>
        assert "" + body == body;
      case Err(e) =>
    }
  }

  lemma BodyBeforeEndTagCons(toks: seq<Token>)
    requires toks != [] && !toks[0].StartElement? && !toks[0].EndElement?
    ensures BodyBeforeEndTag(toks) ==
      match BodyBeforeEndTag(toks[1..])
      case Ok((body, after)) => Ok(((if toks[0].CharData? then toks[0].text else "") + body, after))
      case Err(e) => Err(e)
  {
    var tail := toks[1..];
    var k := FirstTag(toks);
    var k' := FirstTag(tail);
    assert k == 1 + k';
    assert toks[..k] == [toks[0]] + tail[..k'];
    AllTextCons(toks[0], tail[..k']);
    if k < |toks| {
      assert tail[k' + 1..] == toks[k + 1..];
      assert toks[k] == tail[k'];
    }
  }

  lemma AllTextCons(t: Token, ts: seq<Token>)
    ensures AllText([t] + ts) == (if t.CharData? then t.text else "") + AllText(ts)
  {
    assert ([t] + ts)[1..] == ts;
  }

  /** The text a token stands for in a document (no escaping, as the
      source writes it). */
  function StartTag(name: string): string {
    "<" + name + ">"
  }

  function EndTag(name: string): string {
    "</" + name + ">"
  }

  function RenderToken(t: Token): string {
    match t
    case StartElement(n) => StartTag(n)
    case EndElement(n) => EndTag(n)
    case CharData(s) => s
    case Comment(s) => "<!--" + s + "-->"
    case ProcInst(target, inst) => "<?" + target + " " + inst + "?>"
    case Directive(s) => "<!" + s + ">"
  }

  function Render(toks: seq<Token>): string {
    if toks == [] then "" else RenderToken(toks[0]) + Render(toks[1..])
  }

  lemma {:induction false} RenderAppend(a: seq<Token>, b: seq<Token>)
    ensures Render(a + b) == Render(a) + Render(b)
  {
    if a == [] {
      assert a + b == b;
    } else {
      assert (a + b)[0] == a[0] && (a + b)[1..] == a[1..] + b;
      RenderAppend(a[1..], b);
    }
  }

  lemma RenderOne(t: Token)
    ensures Render([t]) == RenderToken(t)
  {
    assert [t][1..] == [];
    assert RenderToken(t) + "" == RenderToken(t);
  }

  /** The tokens of a text run: a tokenizer reports no character data for
      empty text. */
  function Text(s: string): (r: seq<Token>)
    ensures Render(r) == s
  {
    if s == "" then [] else [CharData(s)]
  }

  lemma ReadBodyText(s: string, name: string, tail: seq<Token>)
    ensures ReadBody(Text(s) + [EndElement(name)] + tail) == Ok((s, tail))
  {
    var toks := Text(s) + [EndElement(name)] + tail;
    if s == "" {
      assert toks == [EndElement(name)] + tail;
    } else {
      assert toks[1..] == [EndElement(name)] + tail;
      assert ReadBody(toks[1..]) == Ok(("", tail));
    }
  }

  /** `<?xml version="1.0"?>` followed by a line break. */
  const Prolog: seq<Token> := [ProcInst("xml", "version=\"1.0\""), CharData("\n")]

  lemma PrologText()
    ensures Render(Prolog) == "<?xml version=\"1.0\"?>\n"
  {
  }

  /** The prolog is invisible to `next(false)`. */
  lemma NextSkipsProlog(toks: seq<Token>)
    ensures Next(Prolog + toks, false) == Next(toks, false)
  {
    assert (Prolog + toks)[1..][1..] == toks;
  }
}
