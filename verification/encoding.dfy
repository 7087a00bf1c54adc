/**
 * A reference encoder for messages made of the four wire types the walker
 * understands. It is independent of the walker: it only strings together
 * tags and bodies as the Protocol Buffers encoding lays them out ("Message
 * Structure"), and serves as the partner the walker is proved to invert.
 */
module Encoding {
  import opened Wire

  datatype WireField =
    | VarintField(num: nat, v: nat)
    | Fixed64Field(num: nat, bits: seq<byte>)
    | BytesField(num: nat, payload: seq<byte>)
    | Fixed32Field(num: nat, bits: seq<byte>)

  /** A field any conforming encoder could produce. */
  predicate Valid(f: WireField)
  {
    && 1 <= f.num <= MaxFieldNumber
    && match f
       case VarintField(_, v) => v < VarintLimit
       case Fixed64Field(_, bits) => |bits| == 8
       case BytesField(_, payload) => |payload| < VarintLimit
       case Fixed32Field(_, bits) => |bits| == 4
  }

  function TypeOf(f: WireField): WireType
  {
    match f
    case VarintField(_, _) => VarintType
    case Fixed64Field(_, _) => Fixed64Type
    case BytesField(_, _) => BytesType
    case Fixed32Field(_, _) => Fixed32Type
  }

  /** The bytes after the tag. */
  function Body(f: WireField): seq<byte>
  {
    match f
    case VarintField(_, v) => EncodeVarint(v)
    case Fixed64Field(_, bits) => bits
    case BytesField(_, payload) => AppendBytes([], payload)
    case Fixed32Field(_, bits) => bits
  }

  function EncodeField(f: WireField): seq<byte>
  {
    AppendTag([], f.num, TypeOf(f)) + Body(f)
  }

  function EncodeMessage(fs: seq<WireField>): seq<byte>
  {
    if fs == [] then [] else EncodeField(fs[0]) + EncodeMessage(fs[1..])
  }

  /** The payloads of the length-delimited fields numbered in nums, in order. */
  function Selected(nums: set<nat>, fs: seq<WireField>): seq<seq<byte>>
  {
    if fs == [] then []
    else (if fs[0].BytesField? && fs[0].num in nums then [fs[0].payload] else []) + Selected(nums, fs[1..])
  }
}
