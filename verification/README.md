# XML-RPC client core, modelled in Dafny

This project models the core of a small Go XML-RPC client package (`xmlrpc`),
and proves properties of that model.

- **The value tree and its codec** (`common.go`):
  - the nine `ParamValue` implementations and their `ToXML` writers;
  - the recursive-descent decoder: `parseMessage`, each type's `LoadXML`, `tokenStream.next` and `readBody`.
- **The response envelope** (`response.go`): `ReadResponse`, `Response.SendXML` and `Fault.SendXML`.
- **The request side** (`request.go`, `param.go`): `RemoteMethod`, its `SendXML`, `RegisterFieldMap`, and the conversion of Go call arguments into the value tree.
- **The typed getters of a struct** (`struct.go`).

Each layer is written twice where the source works step by step.

- **A pure specification.**
  - `Decoding` and `Tokens` hold the decoder.
  - `Encoding.ToTokens` holds the token sequence a writer produces.
  - `Params.Convert` holds the argument conversion.
- **An imperative model in the source's own form, proved equal to that specification.**
  - `Parser.TokenStream` is a class whose `rest` field is the unread input. Its loaders loop where the Go code loops. `LoadArray` keeps Go's doubling buffer as a Dafny `array`.
  - The `ToXML` and `SendXML` methods build their text piece by piece, writing into an `Output.Writer`.
  - `Requests.RemoteMethod` is a class with the Go struct's three fields.
  - The `param.go` loops fill fresh arrays and maps.

Properties are then proved about the specifications: round trips, error cases and the quirks the code has.

Modules:
- `Values`: the data model and error kinds.
- `Tokens`: tokens, `next`, `readBody`, rendering to text.
- `Numbers`: `%v` and `strconv.Atoi` for 32-bit ints.
- `Encoding`: the writers.
- `Decoding`: the reader as functions.
- `Parser`: the reader as a stateful stream.
- `Codec`: codec properties.
- `Output`: the `io.Writer`.
- `Responses`, `Requests`, `Params` and `Structs`: the layers above.

Where the code departs from the XML-RPC specification, the model follows the code.

- **Booleans.** The XML-RPC specification writes booleans as `<boolean>0</boolean>` or `<boolean>1</boolean>`. The code writes `%v` of a Go `bool`, which is `true` or `false` (common.go:74-76), but reads only `0` and `1` (common.go:78-90). So no boolean survives a round trip (`Codec.BooleanDoesNotRoundTrip`).
- **Date-times.** They are written as the placeholder `NOT IMPLEMENTED` and always fail to read.
- **Faults.** A fault is written as a plain struct, so the generic decoder reads it back as a struct, not as a fault.
- **Unchecked tokens.** Several tokens are skipped without being checked:
  - the token that opens a member or an element;
  - `</value>`;
  - `</member>`;
  - `<data>`;
  - `</array>`.

## Model

| member | source | states |
|---|---|---|
| Tokens.Next | xmlrpc/common.go:16-32 | defines `next`; a token found always leaves a shorter stream; characterised in `Tokens.NextFindsSignificant` |
| Tokens.Skip | xmlrpc/common.go:178 | an unchecked `p.next(false)`: drops the next significant token and what precedes it (everything when none is left), never lengthening the stream; used in `Decoding.Fields`, `Decoding.LoadElems` and `Responses.ResponseOf` |
| Tokens.ReadBody | xmlrpc/common.go:294-309 | defines `readBody`; a success consumes input; proved equal to the independent `BodyBeforeEndTag` in `Tokens.ReadBodyCollectsText` |
| Tokens.NextFindsSignificant | xmlrpc/common.go:16-32 | `next` returns the first start tag, end tag or (when allowed) text, resuming right after it, having skipped only comments, processing instructions, directives and (when not allowed) text; it fails, with the end-of-input error, only when no such token is left |
| Tokens.ReadBodyCollectsText | xmlrpc/common.go:294-309 | `readBody` returns all text in front of the first tag when that tag is an end tag (consuming it), fails when it is a start tag, and fails at end of input when there is no tag |
| Tokens.ReadBodyText | xmlrpc/common.go:294-309 | a text run followed by any end tag reads back as exactly that text |
| Tokens.NextSkipsProlog | xmlrpc/response.go:22-24 | the `<?xml …?>` prolog and its line break are invisible to `next(false)` |
| Decoding.Parse | xmlrpc/common.go:263-292 | defines `parseMessage`: a success is a value followed by a strictly shorter rest; proved about in `Codec.RoundTrip`, `Codec.ParseNeedsStartTag` and `Codec.UnknownTypeRejected` |
| Decoding.Dispatch | xmlrpc/common.go:268-290 | the switch on the lower-cased tag name; a success consumes input; proved about in `Codec.IntTagsAnyCase` and `Codec.UnknownTypeRejected` |
| Decoding.LoadInt | xmlrpc/common.go:66-72 | a success is an int and consumes input; proved about in `Numbers.AtoiFormatInt` and `Codec.RoundTrip` |
| Decoding.LoadBoolean | xmlrpc/common.go:78-90 | a success is a boolean and consumes input; its grammar is `Codec.BooleanGrammar` |
| Decoding.LoadString | xmlrpc/common.go:96-101 | a success is a string and consumes input; proved about in `Codec.RoundTrip` and `Codec.StringMarkupMisread` |
| Decoding.LoadDouble | xmlrpc/common.go:107-113 | a success is a double and consumes input; proved about in `Codec.RoundTrip` |
| Decoding.LoadBase64 | xmlrpc/common.go:131-139 | a success is base64 data and consumes input; proved about in `Codec.RoundTrip` |
| Decoding.LoadStruct | xmlrpc/common.go:150-188 | a success is a struct and consumes input; proved about in `Codec.MembersRoundTrip`, `Codec.StructLastWriteWins` and `Codec.StructEnd` |
| Decoding.Fields | xmlrpc/common.go:167-181 | the two-round field loop of a member never lengthens the stream, and shortens it once a round has run; proved about in `Codec.MembersRoundTrip` |
| Decoding.LoadArray | xmlrpc/common.go:199-234 | a success is an array and consumes input; proved about in `Codec.ArrayRoundTrip` |
| Decoding.LoadElems | xmlrpc/common.go:206-231 | the element loop: a success is an array and consumes input; proved about in `Codec.ElemsRoundTrip` |
| Decoding.LoadFault | xmlrpc/common.go:241-256 | a success is a fault and consumes input; proved about in `Codec.FaultNeedsCodeAndString` |
| Decoding.ParseMessage | xmlrpc/common.go:258-261 | defines `ParseMessage` on a fresh stream; proved about in `Codec.ParseMessageToTokens` |
| Numbers.AtoiFormatInt | xmlrpc/common.go:62-72 | every 32-bit int written with `%v` is read back by `Atoi` as the same int |
| Numbers.AtoiRejects | xmlrpc/common.go:66-72 | empty text, a bare sign, or anything but optionally signed digits is refused by `Atoi` |
| Encoding.ToTokens | xmlrpc/common.go:62-239 | defines the tokens each `ToXML` writes; proved equal to the written text in `Encoding.ToXML` and read back in `Codec.RoundTrip` |
| Encoding.MembersTokens | xmlrpc/common.go:143-145 | one `<member>` per key in the host's order; proved about in `Encoding.MembersTokensSnoc` |
| Encoding.ElemsTokens | xmlrpc/common.go:192-194 | one `<value>` per element in order; proved about in `Encoding.ElemsTokensSnoc` |
| Encoding.FaultTokens | xmlrpc/common.go:236-239 | a fault's tokens; proved equal to its struct's in `Encoding.FaultTokensAreStructTokens` |
| Encoding.ToXML | xmlrpc/common.go:62-139 | the text each leaf `ToXML` writes is the rendering of that leaf's element tokens; nil is refused, as Go panics on it |
| Encoding.StructToXML | xmlrpc/common.go:141-148 | `<struct>`, one `<member><name>k</name><value>…</value></member>` per key in the host's visiting order, `</struct>` |
| Encoding.ArrayToXML | xmlrpc/common.go:190-197 | `<array><data>`, one `<value>…</value>` per element in order, `</data></array>` |
| Encoding.FaultToXML | xmlrpc/common.go:236-239 | a fault is written as the struct of its `faultCode` and `faultString` |
| Encoding.FaultTokensAreStructTokens | xmlrpc/common.go:236-239 | a fault's tokens are exactly those of the struct `{faultCode: int, faultString: string}` |
| Encoding.MembersTokensSnoc | xmlrpc/common.go:143-145 | visiting one more key appends exactly that key's member |
| Encoding.ElemsTokensSnoc | xmlrpc/common.go:192-194 | one more element appends exactly one `<value>` element |
| Parser.TokenStream.Next | xmlrpc/common.go:16-32 | the stateful `next` returns what `Tokens.Next` specifies and leaves the stream after it; on failure the stream is exhausted |
| Parser.TokenStream.ReadBody | xmlrpc/common.go:294-309 | the `readBody` loop accumulates exactly the text `Tokens.ReadBody` specifies and stops where it does |
| Parser.TokenStream.Parse | xmlrpc/common.go:263-292 | the tag switch on the lower-cased name agrees with `Decoding.Parse`: same value and position, or same error |
| Parser.TokenStream.LoadInt | xmlrpc/common.go:66-72 | agrees with `Decoding.LoadInt` |
| Parser.TokenStream.LoadBoolean | xmlrpc/common.go:78-90 | agrees with `Decoding.LoadBoolean` |
| Parser.TokenStream.LoadString | xmlrpc/common.go:96-101 | agrees with `Decoding.LoadString` |
| Parser.TokenStream.LoadDouble | xmlrpc/common.go:107-113 | agrees with `Decoding.LoadDouble` |
| Parser.TokenStream.LoadBase64 | xmlrpc/common.go:131-139 | agrees with `Decoding.LoadBase64` |
| Parser.TokenStream.LoadStruct | xmlrpc/common.go:150-188 | the member loop, with its two-round field loop, agrees with `Decoding.LoadStruct` |
| Parser.TokenStream.LoadArray | xmlrpc/common.go:199-234 | the element loop, storing into a buffer of capacity two that doubles when full, returns the elements `Decoding.LoadArray` specifies, in order |
| Parser.TokenStream.LoadFault | xmlrpc/common.go:241-256 | agrees with `Decoding.LoadFault` |
| Parser.Put | xmlrpc/common.go:220-227 | storing at index x keeps the first x elements and adds the value after them, in the same or a fresh, longer buffer |
| Parser.Grow | xmlrpc/common.go:220-226 | the new buffer is twice x long and starts with a copy of the old one |
| Parser.ParseMessage | xmlrpc/common.go:258-261 | `ParseMessage` on a fresh stream computes `Decoding.ParseMessage` |
| Codec.RoundTrip | xmlrpc/common.go:62-292 | with lawful host primitives, every value without booleans, date-times, faults, nil or NaN doubles, whose strings and member names are markup-free, nested to any depth, is parsed back from its own tokens as itself, leaving what follows untouched |
| Codec.StructRoundTrip | xmlrpc/common.go:141-188 | a struct with markup-free member names and round-trippable members is read back with exactly the same members |
| Codec.ArrayRoundTrip | xmlrpc/common.go:190-234 | an array of round-trippable elements is read back with the same elements in the same order |
| Codec.MembersRoundTrip | xmlrpc/common.go:143-186 | the members written for any duplicate-free key order, under markup-free names, are stored under their keys |
| Codec.ElemsRoundTrip | xmlrpc/common.go:192-231 | the elements written are read back appended in order |
| Codec.ParseMessageToTokens | xmlrpc/common.go:258-261 | `ParseMessage` of what `ToXML` wrote is the value |
| Codec.ParseIntFour | xmlrpc/common_test.go:7-17 | `<int>4</int>` parses to the int 4 |
| Codec.BooleanDoesNotRoundTrip | xmlrpc/common.go:74-90 | a written boolean (`true`/`false`) is read back as a bad-boolean error |
| Codec.BooleanGrammar | xmlrpc/common.go:78-90 | a boolean body is `0` (false), `1` (true), and anything else an error |
| Codec.DateTimeNotImplemented | xmlrpc/common.go:115-122 | a written date-time always fails to read |
| Codec.FaultReadsAsStruct | xmlrpc/common.go:236-239 | a written fault whose string is markup-free is parsed back as the struct of its code and string |
| Codec.FaultNeedsCodeAndString | xmlrpc/common.go:241-256 | a fault loads exactly when `<value>` holds a struct with an int `faultCode` and a string `faultString`, taking those two, and is invalid otherwise |
| Codec.IntTagsAnyCase | xmlrpc/common.go:268-272 | any tag whose lower-cased name is `int` or `i4` (`I4`, `INT`, `Int`, ...) parses exactly as `int` |
| Codec.UnknownTypeRejected | xmlrpc/common.go:289 | a tag outside the ten names is refused as an unknown type, naming the tag |
| Codec.ParseNeedsStartTag | xmlrpc/common.go:264-267 | a value must begin with a start tag |
| Codec.StructLastWriteWins | xmlrpc/common.go:182 | of two members with the same name only the later value is kept |
| Codec.StructEnd | xmlrpc/common.go:160-164 | an end tag whose lower-cased name is `struct` (`</struct>`, `</STRUCT>`, ...) closes the struct with the members stored so far and consumes only that tag |
| Codec.StringMarkupNotEscaped | xmlrpc/common.go:92-94 | a string holding an element's markup is written exactly as that element nested in `<string>` |
| Codec.StringMarkupMisread | xmlrpc/common.go:96-101 | such a string does not read back: `readBody` meets a start tag |
| Codec.StoredContents | xmlrpc/common.go:182 | storing members by key keeps earlier keys not overwritten and maps every stored key to its value |
| Responses.ResponseOf | xmlrpc/response.go:22-47 | defines `ReadResponse`; proved about in `Responses.FirstTokenIgnored`, `Responses.ResponseRejects`, `Responses.FaultIsError`, `Responses.ParamsSkipsTwo` and the round trips |
| Responses.ReadResponse | xmlrpc/response.go:22-47 | reading a response from a fresh stream computes `ResponseOf` |
| Responses.PrologIgnored | xmlrpc/response.go:22-24 | the prolog in front of a response makes no difference |
| Responses.FirstTokenIgnored | xmlrpc/response.go:24 | the first significant token is discarded whatever it is |
| Responses.ResponseRejects | xmlrpc/response.go:29-32 | a second token that is not `<fault>` or `<params>` (any case) is an invalid response |
| Responses.FaultIsError | xmlrpc/response.go:34-39 | a `<fault>` never yields a response: a well-formed fault becomes the error with its code and string; a malformed one yields the error met reading it |
| Responses.ParamsSkipsTwo | xmlrpc/response.go:40-44 | under `<params>` two tokens are skipped unchecked and the response is the value parsed after them, or its error |
| Responses.SendXML | xmlrpc/response.go:49-58 | the writer receives the prolog, `<methodResponse><params><param><value>`, the value's XML and the closing tags |
| Responses.SendFaultXML | xmlrpc/response.go:60-69 | the writer receives the prolog, `<methodResponse><fault><value>`, the fault's XML and the closing tags |
| Responses.ResponseRoundTrip | xmlrpc/response.go:22-58 | reading back a written response of a round-trippable value gives the response with the same value |
| Responses.FaultResponseRoundTrip | xmlrpc/response.go:22-69 | reading back a written fault response whose string is markup-free gives the remote-fault error with the same code and string |
| Responses.ResponseText | xmlrpc/response.go:49-58 | the pieces written one after another make up the text of the response document |
| Responses.FaultResponseText | xmlrpc/response.go:60-69 | the pieces written one after another make up the text of the fault document |
| Params.Convert | xmlrpc/param.go:82-102 | defines `param`; proved about in `Params.ConvertEncodable` and `Params.ConvertUsesOwnTypes` |
| Params.ConvertAll | xmlrpc/param.go:73-80 | one value per element; proved elementwise in `Params.ConvertAllElements` |
| Params.Members | xmlrpc/param.go:48-62 | defines `structParams`; proved about in `Params.MembersKeys` and `Params.MembersLastWins` |
| Params.FieldKey | xmlrpc/param.go:50-58 | the wire name of a field; proved about in `Requests.RegisteredRenames` |
| Params.Param | xmlrpc/param.go:82-102 | `param` dispatches on the kind of value and returns its conversion |
| Params.ByteParams | xmlrpc/param.go:64-71 | a byte slice is copied into a `Base64Value` holding the same bytes |
| Params.ArrayParams | xmlrpc/param.go:73-80 | each slice element is converted into its own slot of the array |
| Params.StructParams | xmlrpc/param.go:48-62 | each field is converted and stored under its wire name, later fields overwriting earlier ones with the same key |
| Params.ConvertAllElements | xmlrpc/param.go:73-80 | the i-th value is the conversion of the i-th element |
| Params.MembersKeys | xmlrpc/param.go:48-62 | the struct's keys are exactly the wire names of its fields |
| Params.MembersLastWins | xmlrpc/param.go:59 | a field whose key no later field shares is stored as its converted value |
| Params.ConvertUsesOwnTypes | xmlrpc/param.go:50 | renaming consults only the maps of the struct types the value mentions |
| Params.ConvertEncodable | xmlrpc/param.go:82-102 | a converted value never holds nil, so it can always be written |
| Requests.RequestTokens | xmlrpc/request.go:28-40 | defines the `methodCall` document; proved equal to the written text in `Requests.RemoteMethod.SendXML` and read back in `Requests.RequestRoundTrip` |
| Output.Writer.WriteString | xmlrpc/request.go:29 | `io.WriteString` appends exactly its text to what was written before |
| Requests.RemoteMethod.constructor | xmlrpc/request.go:20-22 | a new remote method has the given endpoint and method name and no field maps |
| Requests.RemoteMethod.SendXML | xmlrpc/request.go:28-40 | the writer receives the prolog, `<methodCall>`, the method name, one `<param><value>` per parameter in order, and the closing tags; nothing else changes |
| Requests.WriteParams | xmlrpc/request.go:33-37 | the parameter loop writes one `<param><value>…</value></param>` per parameter, in order |
| Requests.RemoteMethod.RegisterFieldMap | xmlrpc/param.go:27-35 | the type's map is created if missing and every pair of the mapping copied into it; other types' maps and the other fields are unchanged |
| Requests.Registered | xmlrpc/param.go:27-35 | after registering, the mapping's names win and the type's earlier names not in the mapping stay |
| Requests.RegisteredRenames | xmlrpc/param.go:27-35 | after registering, that type's fields are sent under the new names and other types' fields are unaffected |
| Requests.RemoteMethod.Params | xmlrpc/param.go:38-46 | one converted value per argument, in argument order |
| Requests.ConvertedSendable | xmlrpc/param.go:38-46 | the converted arguments satisfy what `SendXML` requires |
| Requests.RequestText | xmlrpc/request.go:28-40 | the request text is the prolog, `<methodCall><methodName>`, the name verbatim, `</methodName><params>`, the parameters, `</params></methodCall>` |
| Requests.NoParams | xmlrpc/request.go:28-40 | with no parameters the request still holds an empty `<params></params>` |
| Requests.ParamListCons | xmlrpc/request.go:35-39 | the parameter list is the first parameter's element followed by the others' |
| Requests.ParamsRoundTrip | xmlrpc/request.go:35-39 | the parameters written are read back one per parameter, in order |
| Requests.RequestRoundTrip | xmlrpc/request.go:28-40 | a written request with a markup-free method name is read back as its method name and exactly its parameters, in order |
| Structs.GetInt | xmlrpc/struct.go:7 | returns the int stored under the key, which must hold an int |
| Structs.GetString | xmlrpc/struct.go:9-11 | returns the string stored under the key, which must hold a string |
| Structs.GetDouble | xmlrpc/struct.go:13-15 | returns the double stored under the key, which must hold a double |
| Structs.GetTime | xmlrpc/struct.go:17-19 | returns the time stored under the key, which must hold a date-time |
| Structs.GetBoolean | xmlrpc/struct.go:21-23 | returns the boolean stored under the key, which must hold a boolean |
| Structs.GetBytes | xmlrpc/struct.go:25-27 | returns the bytes stored under the key, which must hold base64 data |
| Structs.GetArray | xmlrpc/struct.go:29-31 | returns the nested array unchanged |
| Structs.GetStruct | xmlrpc/struct.go:33-35 | returns the nested struct unchanged |
| Structs.DecodedGetters | xmlrpc/struct.go:7-35 | on a struct with markup-free member names, written and read back, each getter returns what was stored under that key |
| Structs.ConvertedGetInt | xmlrpc/struct.go:7 | on a struct converted from Go, `GetInt` under a field's wire name returns that field's int, unless a later field shares the name |
| Structs.ConvertedGetString | xmlrpc/struct.go:9-11 | likewise `GetString` for a string field |

## Left out

- The XML tokenizer (`xml.Parser`): a document is given as the token sequence it yields. Token names are local names; attributes and namespaces are dropped. Its own errors are modelled only as the end of input.
- The writers copy strings, member names and the method name verbatim with `%v` and `%s` and escape nothing (common.go:93, common.go:144, request.go:31). Round trips are therefore stated only for markup-free text (`Values.MarkupFree`): no `<`, `&`, `]]>` or carriage return, and only characters XML allows. `Codec.StringMarkupNotEscaped` and `Codec.StringMarkupMisread` show what the writers do to text holding markup.
- Floating-point text (`%v`, `strconv.Atof`) and base64 (`encoding/base64`) are host primitives with assumed laws (`Values.Lawful`), not modelled. Parsing undoes formatting only for floats that are not NaN: `%v` prints every NaN as `NaN`, so `Values.RoundTrippable` excludes NaN doubles. The text both primitives produce is assumed markup-free.
- The order in which Go's `range` visits a map's keys is a host primitive. Nothing is stated about member order beyond what a lawful host gives: every key once.
- `Values.Lower`: only the characters that can lower-case to an ASCII letter are mapped. That is enough for comparisons against ASCII tag names, but not the whole of `strings.ToLower`.
- Go's decoder sometimes returns a partial value together with an error, for example `Atoi`'s result on overflow. The model returns only the error.
- Where the stream is left after an error is not stated.
- The text of error messages and `Fault.String` (common.go:51-59).
- `Encoding.ToXML`: a nil value is excluded by its precondition, as Go panics on it. `ToTokens(Nil)` is empty only to make the function total.
- `Encoding.FaultToXML` writes the fault's two members in the host's key order directly, instead of building the map and calling `StructValue.ToXML`. `Encoding.FaultTokensAreStructTokens` proves the two give the same tokens. This avoids a recursive call on a value that is not structurally smaller.
- Reflection in `param.go` is replaced by the `Params.HostValue` datatype. Go `int`/`float` map to `HInt`/`HFloat`; every other numeric width, maps and `*T` values are `HOther`, so they become the placeholder string, as they fall through `param`'s type switch.
- `RegisterFieldMap` takes the type name that `reflect.Typeof(s).String()` would give, not a sample value.
- `params`, `structParams` and `arrayParams` take the field-map table rather than the whole receiver, since that is all they read.
- `Call`, the `CallX` wrappers and the `BaseParams` splicing: `xmlrpc/http.go` is not part of this model (HTTP transport and type assertions).
- `Requests.ReadRequest`/`ReadParams` are a reader that the package itself does not have; they serve only to state what a request carries.
- Concurrency, and the 32-bit overflow of the array buffer's doubling, are not modelled.
