/** The typed accessors of a decoded struct (xmlrpc/struct.go). Each one
    looks the key up and asserts the variant; Go panics when the key is
    missing or holds another variant, which here is the precondition. */
module Structs {
  import opened Values
  import opened Tokens
  import opened Encoding
  import opened Decoding
  import opened Params
  import Codec

  type StructMembers = map<string, ParamValue>

  /** `GetInt` */
  function GetInt(st: StructMembers, s: string): (r: int32)
    requires s in st && st[s].IntValue?
    ensures st[s] == IntValue(r)
  {
    st[s].i
  }

  /** `GetString` */
  function GetString(st: StructMembers, s: string): (r: string)
    requires s in st && st[s].StringValue?
    ensures st[s] == StringValue(r)
  {
    st[s].s
  }

  /** `GetDouble` */
  function GetDouble(st: StructMembers, s: string): (r: Float)
    requires s in st && st[s].DoubleValue?
    ensures st[s] == DoubleValue(r)
  {
    st[s].d
  }

  /** `GetTime` */
  function GetTime(st: StructMembers, s: string): (r: Time)
    requires s in st && st[s].DateTimeValue?
    ensures st[s] == DateTimeValue(r)
  {
    st[s].t
  }

  /** `GetBoolean` */
  function GetBoolean(st: StructMembers, s: string): (r: bool)
    requires s in st && st[s].BooleanValue?
    ensures st[s] == BooleanValue(r)
  {
    st[s].b
  }

  /** `GetBytes` */
  function GetBytes(st: StructMembers, s: string): (r: seq<byte>)
    requires s in st && st[s].Base64Value?
    ensures st[s] == Base64Value(r)
  {
    st[s].bytes
  }

  /** `GetArray`: the nested array, unchanged. */
  function GetArray(st: StructMembers, s: string): (r: seq<ParamValue>)
    requires s in st && st[s].ArrayValue?
    ensures st[s] == ArrayValue(r)
  {
    st[s].elems
  }

  /** `GetStruct`: the nested struct, unchanged. */
  function GetStruct(st: StructMembers, s: string): (r: StructMembers)
    requires s in st && st[s].StructValue?
    ensures st[s] == StructValue(r)
  {
    st[s].members
  }

  /** A struct sent and read back answers each getter with what was put
      under that key. */
  lemma DecodedGetters(h: Host, m: StructMembers, tail: seq<Token>, k: string)
    requires Lawful(h)
    requires forall j | j in m :: MarkupFree(j) && RoundTrippable(m[j])
    requires k in m
    ensures Parse(h, ToTokens(h, StructValue(m)) + tail).Ok?
    ensures var d := Parse(h, ToTokens(h, StructValue(m)) + tail).value.0;
      && d.StructValue? && k in d.members
      && (m[k].IntValue? ==> d.members[k].IntValue? && GetInt(d.members, k) == m[k].i)
      && (m[k].StringValue? ==> d.members[k].StringValue? && GetString(d.members, k) == m[k].s)
      && (m[k].DoubleValue? ==> d.members[k].DoubleValue? && GetDouble(d.members, k) == m[k].d)
      && (m[k].Base64Value? ==> d.members[k].Base64Value? && GetBytes(d.members, k) == m[k].bytes)
      && (m[k].ArrayValue? ==> d.members[k].ArrayValue? && GetArray(d.members, k) == m[k].elems)
      && (m[k].StructValue? ==> d.members[k].StructValue? && GetStruct(d.members, k) == m[k].members)
  {
    Codec.StructRoundTrip(h, m, tail);
  }

  /** The struct built from a Go struct answers `GetInt` under a field's
      wire name with that field's integer, unless a later field was stored
      under the same name. */
  lemma ConvertedGetInt(maps: FieldMaps, typeName: string, fs: seq<Field>, i: nat)
    requires i < |fs| && fs[i].value.HInt?
    requires forall j | i < j < |fs| :: FieldKey(maps, typeName, fs[j].name) != FieldKey(maps, typeName, fs[i].name)
    ensures var k := FieldKey(maps, typeName, fs[i].name);
      k in Members(maps, typeName, fs) && Members(maps, typeName, fs)[k].IntValue?
      && GetInt(Members(maps, typeName, fs), k) == fs[i].value.i
  {
    MembersLastWins(maps, typeName, fs, i);
  }

  /** Likewise `GetString` for a string field. */
  lemma ConvertedGetString(maps: FieldMaps, typeName: string, fs: seq<Field>, i: nat)
    requires i < |fs| && fs[i].value.HString?
    requires forall j | i < j < |fs| :: FieldKey(maps, typeName, fs[j].name) != FieldKey(maps, typeName, fs[i].name)
    ensures var k := FieldKey(maps, typeName, fs[i].name);
      k in Members(maps, typeName, fs) && Members(maps, typeName, fs)[k].StringValue?
      && GetString(Members(maps, typeName, fs), k) == fs[i].value.s
  {
    MembersLastWins(maps, typeName, fs, i);
  }
}
