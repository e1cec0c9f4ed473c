/** The native adapter (xmlrpc/param.go): Go values, as `reflect` presents
    them, converted to the value tree. The conversion is stated once as the
    function `Convert`; the methods below compute it the way the source
    does, filling preallocated slices and a map in index loops. */
module Params {
  import opened Values

  /** A Go value as the type switch of `param` sees it. `HInt` and `HFloat`
      are Go's `int` and `float`; a slice of `uint8` is `HBytes`; every
      other type (other integer and float widths, maps, `*T` values, ...) is
      `HOther`, carrying the text `%T` prints for it. */
  datatype HostValue =
    | HInt(i: int32)
    | HBool(b: bool)
    | HString(s: string)
    | HFloat(f: Float)
    | HBytes(bytes: seq<byte>)
    | HSlice(elems: seq<HostValue>)
    | HStruct(typeName: string, fields: seq<Field>)
    | HOther(typeName: string)

  /** A struct field: its declared name and its value. */
  datatype Field = Field(name: string, value: HostValue)

  /** `RemoteFieldMap`: per struct type name, field name to wire name. */
  type FieldMaps = map<string, map<string, string>>

  /** The name a struct field is sent under: its wire name when the map
      registered for the struct's type has one, its own name otherwise. */
  function FieldKey(maps: FieldMaps, typeName: string, name: string): string {
    if typeName in maps && name in maps[typeName] then maps[typeName][name] else name
  }

  /** The string `param` returns for a value of a type it does not know. */
  function Placeholder(typeName: string): string {
    "Error: Unknown Param Type (" + typeName + ")\n"
  }

  /** `param`: the value tree for one host value. */
  function Convert(maps: FieldMaps, v: HostValue): ParamValue
    decreases v
  {
    match v
    case HInt(i) => IntValue(i)
    case HBool(b) => BooleanValue(b)
    case HString(s) => StringValue(s)
    case HFloat(f) => DoubleValue(f)
    case HBytes(b) => Base64Value(b)
    case HSlice(es) => ArrayValue(ConvertAll(maps, es))
    case HStruct(t, fs) => StructValue(Members(maps, t, fs))
    case HOther(t) => StringValue(Placeholder(t))
  }

  /** `arrayParams`: one converted value per element, in order. */
  function ConvertAll(maps: FieldMaps, es: seq<HostValue>): (r: seq<ParamValue>)
    ensures |r| == |es|
    decreases es
  {
    if es == [] then []
    else ConvertAll(maps, es[..|es| - 1]) + [Convert(maps, es[|es| - 1])]
  }

  /** `params` and `arrayParams` give one value per argument, each the
      conversion of the argument in the same position. */
  lemma {:induction false} ConvertAllElements(maps: FieldMaps, es: seq<HostValue>)
    ensures forall i | 0 <= i < |es| :: ConvertAll(maps, es)[i] == Convert(maps, es[i])
    decreases es
  {
    if es != [] {
      var init := es[..|es| - 1];
      ConvertAllElements(maps, init);
      forall i | 0 <= i < |es| - 1
        ensures ConvertAll(maps, es)[i] == Convert(maps, es[i])
      {
        assert init[i] == es[i];
      }
    }
  }

  lemma ConvertAllStep(maps: FieldMaps, es: seq<HostValue>, n: nat)
    requires n < |es|
    ensures ConvertAll(maps, es[..n + 1]) == ConvertAll(maps, es[..n]) + [Convert(maps, es[n])]
  {
    assert es[..n + 1][..n] == es[..n];
  }

  /** `structParams`: the fields stored in order under their wire names, so
      that a later field overwrites an earlier one with the same key. */
  function Members(maps: FieldMaps, typeName: string, fs: seq<Field>): map<string, ParamValue>
    decreases fs
  {
    if fs == [] then map[]
    else
      var last := fs[|fs| - 1];
      Members(maps, typeName, fs[..|fs| - 1])[FieldKey(maps, typeName, last.name) := Convert(maps, last.value)]
  }

  /** The keys of the struct are exactly the wire names of its fields. */
  lemma {:induction false} MembersKeys(maps: FieldMaps, typeName: string, fs: seq<Field>)
    ensures forall i | 0 <= i < |fs| :: FieldKey(maps, typeName, fs[i].name) in Members(maps, typeName, fs)
    ensures forall k | k in Members(maps, typeName, fs) ::
      exists i | 0 <= i < |fs| :: FieldKey(maps, typeName, fs[i].name) == k
    decreases fs
  {
    if fs != [] {
      var init := fs[..|fs| - 1];
      MembersKeys(maps, typeName, init);
      forall i | 0 <= i < |fs| - 1
        ensures FieldKey(maps, typeName, fs[i].name) in Members(maps, typeName, fs)
      {
        assert init[i] == fs[i];
      }
      forall k | k in Members(maps, typeName, fs)
        ensures exists i | 0 <= i < |fs| :: FieldKey(maps, typeName, fs[i].name) == k
      {
        if k != FieldKey(maps, typeName, fs[|fs| - 1].name) {
          var i :| 0 <= i < |init| && FieldKey(maps, typeName, init[i].name) == k;
          assert fs[i] == init[i];
        }
      }
    }
  }

  /** The member stored under a field's key is that field's converted value
      when no later field has the same key. */
  lemma {:induction false} MembersLastWins(maps: FieldMaps, typeName: string, fs: seq<Field>, i: nat)
    requires i < |fs|
    requires forall j | i < j < |fs| :: FieldKey(maps, typeName, fs[j].name) != FieldKey(maps, typeName, fs[i].name)
    ensures var k := FieldKey(maps, typeName, fs[i].name);
      k in Members(maps, typeName, fs) && Members(maps, typeName, fs)[k] == Convert(maps, fs[i].value)
    decreases fs
  {
    if i < |fs| - 1 {
      var init := fs[..|fs| - 1];
      assert init[i] == fs[i];
      MembersLastWins(maps, typeName, init, i);
    }
  }

  /** The struct type names a host value mentions: the only entries of the
      field maps its conversion can consult. */
  function TypeNames(v: HostValue): set<string>
    decreases v
  {
    match v
    case HSlice(es) => ElemsTypeNames(es)
    case HStruct(t, fs) => {t} + FieldsTypeNames(fs)
    case _ => {}
  }

  function ElemsTypeNames(es: seq<HostValue>): set<string>
    decreases es
  {
    if es == [] then {} else ElemsTypeNames(es[..|es| - 1]) + TypeNames(es[|es| - 1])
  }

  function FieldsTypeNames(fs: seq<Field>): set<string>
    decreases fs
  {
    if fs == [] then {} else FieldsTypeNames(fs[..|fs| - 1]) + TypeNames(fs[|fs| - 1].value)
  }

  /** Two field-map tables that register the same renamings for `names`. */
  ghost predicate AgreeOn(m1: FieldMaps, m2: FieldMaps, names: set<string>) {
    forall t | t in names :: (t in m1 <==> t in m2) && (t in m1 ==> m1[t] == m2[t])
  }

  /** Renaming consults only the map registered for each struct's own type:
      tables that agree on the types a value mentions convert it alike. */
  lemma {:induction false} ConvertUsesOwnTypes(m1: FieldMaps, m2: FieldMaps, v: HostValue)
    requires AgreeOn(m1, m2, TypeNames(v))
    ensures Convert(m1, v) == Convert(m2, v)
    decreases v
  {
    match v
    case HSlice(es) => ConvertAllUsesOwnTypes(m1, m2, es);
    case HStruct(t, fs) => MembersUseOwnTypes(m1, m2, t, fs);
    case _ =>
  }

  lemma {:induction false} ConvertAllUsesOwnTypes(m1: FieldMaps, m2: FieldMaps, es: seq<HostValue>)
    requires AgreeOn(m1, m2, ElemsTypeNames(es))
    ensures ConvertAll(m1, es) == ConvertAll(m2, es)
    decreases es
  {
    if es != [] {
      ConvertAllUsesOwnTypes(m1, m2, es[..|es| - 1]);
      ConvertUsesOwnTypes(m1, m2, es[|es| - 1]);
    }
  }

  lemma {:induction false} MembersUseOwnTypes(m1: FieldMaps, m2: FieldMaps, t: string, fs: seq<Field>)
    requires AgreeOn(m1, m2, {t} + FieldsTypeNames(fs))
    ensures Members(m1, t, fs) == Members(m2, t, fs)
    decreases fs
  {
    if fs != [] {
      var init := fs[..|fs| - 1];
      assert FieldsTypeNames(fs) == FieldsTypeNames(init) + TypeNames(fs[|fs| - 1].value);
      MembersUseOwnTypes(m1, m2, t, init);
      ConvertUsesOwnTypes(m1, m2, fs[|fs| - 1].value);
    }
  }

  /** A converted value never holds nil, so `ToXML` can always write it. */
  lemma {:induction false} ConvertEncodable(maps: FieldMaps, v: HostValue)
    ensures Encodable(Convert(maps, v))
    decreases v
  {
    match v
    case HSlice(es) =>
      ConvertAllElements(maps, es);
      forall i | 0 <= i < |es|
        ensures Encodable(ConvertAll(maps, es)[i])
      {
        ConvertEncodable(maps, es[i]);
      }
    case HStruct(t, fs) => MembersEncodable(maps, t, fs);
    case _ =>
  }

  lemma {:induction false} MembersEncodable(maps: FieldMaps, t: string, fs: seq<Field>)
    ensures forall k | k in Members(maps, t, fs) :: Encodable(Members(maps, t, fs)[k])
    decreases fs
  {
    if fs != [] {
      MembersEncodable(maps, t, fs[..|fs| - 1]);
      ConvertEncodable(maps, fs[|fs| - 1].value);
    }
  }

  /** `param`: dispatch on the kind of value. */
  method Param(maps: FieldMaps, v: HostValue) returns (p: ParamValue)
    ensures p == Convert(maps, v)
    decreases v
  {
    match v {
      case HInt(i) => p := IntValue(i);
      case HBool(b) => p := BooleanValue(b);
      case HString(s) => p := StringValue(s);
      case HFloat(f) => p := DoubleValue(f);
      case HBytes(b) => p := ByteParams(b);
      case HSlice(es) => p := ArrayParams(maps, es);
      case HStruct(t, fs) => p := StructParams(maps, t, fs);
      case HOther(t) => p := StringValue(Placeholder(t));
    }
  }

  /** `byteParams`: the bytes copied one by one into a new slice. */
  method ByteParams(bytes: seq<byte>) returns (p: ParamValue)
    ensures p == Base64Value(bytes)
  {
    var par := new byte[|bytes|];
    for n := 0 to par.Length
      invariant par[..n] == bytes[..n]
    {
      par[n] := bytes[n];
    }
    assert bytes[..par.Length] == bytes;
    return Base64Value(par[..]);
  }

  /** `arrayParams`: each element converted into its slot of a new slice. */
  method ArrayParams(maps: FieldMaps, es: seq<HostValue>) returns (p: ParamValue)
    ensures p == ArrayValue(ConvertAll(maps, es))
    decreases es
  {
    var par := new ParamValue[|es|](_ => Nil);
    for n := 0 to par.Length
      invariant par[..n] == ConvertAll(maps, es[..n])
    {
      var x := Param(maps, es[n]);
      par[n] := x;
      ConvertAllStep(maps, es, n);
    }
    assert es[..par.Length] == es;
    return ArrayValue(par[..]);
  }

  /** `structParams`: each field converted and stored under its wire name. */
  method StructParams(maps: FieldMaps, typeName: string, fields: seq<Field>) returns (p: ParamValue)
    ensures p == StructValue(Members(maps, typeName, fields))
    decreases fields
  {
    var s: map<string, ParamValue> := map[];
    var hasOverrides := typeName in maps;
    var fieldMap := if hasOverrides then maps[typeName] else map[];
    for n := 0 to |fields|
      invariant s == Members(maps, typeName, fields[..n])
    {
      var key := fields[n].name;
      if hasOverrides && key in fieldMap {
        key := fieldMap[key];
      }
      var x := Param(maps, fields[n].value);
      s := s[key := x];
      assert fields[..n + 1][..n] == fields[..n];
    }
    assert fields[..|fields|] == fields;
    return StructValue(s);
  }
}
