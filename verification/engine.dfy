/**
 * The walks as the original program runs them: a loop that advances a cursor
 * `pos` over the message one field at a time, accumulating a count or a list
 * of payloads, and gives up with nothing but the error on the first failure.
 * Each loop is proved against its specification function in Walker, and the
 * per-message functions of the original program are instances of the three
 * generic loops at one schema level each.
 */
module Engine {
  import opened Wire
  import opened Schema
  import opened Walker
  import opened Encoding

  /** A value and an error, as the original functions return them, read as a
      walk result. */
  function Outcome<T>(value: T, err: Option<Error>): Result<T>
  {
    if err.None? then Ok(value) else Err(err.value)
  }

  /** The counting loop at `level`, descending into each taken payload (or
      counting it, at a leaf level). */
  method CountMessage(level: Level, data: seq<byte>) returns (count: nat, err: Option<Error>)
    ensures Count(level, data) == Outcome(count, err)
    ensures err.Some? ==> count == 0
    decreases |data|, 1
  {
    hide Count;
    count := 0;
    var pos := 0;
    ghost var total := Count(level, data);
    ghost var rest := data;
    PlusZero(total);
    while pos < |data|
      invariant pos <= |data| && rest == data[pos..]
      invariant total == Plus(count, Count(level, rest))
    {
      var n, c, e := CountField(level, data[pos..]);
      if e.Some? {
        return 0, e;
      }
      PlusPlus(count, c, Count(level, rest[n..]));
      pos := pos + n;
      count := count + c;
      rest := rest[n..];
    }
    CountEmpty(level);
    return count, None;
  }

  /** One pass of the counting loop's body: reads the field at the front of
      rest and returns its length and what it adds to the count. */
  method CountField(level: Level, rest: seq<byte>) returns (n: nat, c: nat, err: Option<Error>)
    requires rest != []
    ensures err.None? ==> 1 <= n <= |rest| && Count(level, rest) == Plus(c, Count(level, rest[n..]))
    ensures err.Some? ==> Count(level, rest) == Err(err.value)
    ensures err.None? ==>
              var f := Next(level, level.fields, rest);
              f.Ok? && n == f.value.len
              && (f.value.payload.None? ==> c == 0)
              && (f.value.payload.Some? && level.inner.None? ==> c == 1)
              && (f.value.payload.Some? && level.inner.Some? ==> Count(level.inner.value, f.value.payload.value) == Ok(c))
    decreases |rest|, 0
  {
    hide Count, Next, ConsumeTag, ConsumeBytes, SkipField;
    NextFails(level, level.fields, rest);
    var tag := ConsumeTag(rest);
    if tag.Malformed? {
      CountStepFails(level, rest);
      return 0, 0, Some(MalformedTag(level.message));
    }
    if tag.value.num in level.fields && tag.value.wt == BytesType {
      var msg := ConsumeBytes(rest[tag.n..]);
      if msg.Malformed? {
        CountStepFails(level, rest);
        return 0, 0, Some(InvalidBytes(level.message, tag.value.num));
      }
      n := tag.n + msg.n;
      NextTakes(level, level.fields, rest, tag.value, tag.n, msg.value, msg.n);
      CountStep(level, rest, Field(tag.value.num, n, Some(msg.value)));
      if level.inner.None? {
        c := 1;
      } else {
        var e;
        c, e := CountMessage(level.inner.value, msg.value);
        if e.Some? {
          assert Count(level.inner.value, msg.value) == Err(e.value);
          return 0, 0, e;
        }
        assert Count(level.inner.value, msg.value) == Ok(c);
      }
    } else {
      var skipped := SkipField(rest[tag.n..], tag.value.wt);
      if skipped.Malformed? {
        CountStepFails(level, rest);
        return 0, 0, Some(SkipFailed(level.message));
      }
      n := tag.n + skipped.n;
      NextSkips(level, level.fields, rest, tag.value, tag.n, skipped.n);
      CountStep(level, rest, Field(tag.value.num, n, None));
      c := 0;
    }
    err := None;
  }

  /** The splitting loop at `level`: the payload of every length-delimited
      field numbered in level.fields, in reading order. */
  method ExtractPayloads(level: Level, data: seq<byte>) returns (list: seq<seq<byte>>, err: Option<Error>)
    ensures Payloads(level, level.fields, data) == Outcome(list, err)
    ensures err.Some? ==> list == []
  {
    hide Payloads, Next, ConsumeTag, ConsumeBytes, SkipField;
    list := [];
    var pos := 0;
    assert data[pos..] == data;
    PrependNil(Payloads(level, level.fields, data));
    while pos < |data|
      invariant pos <= |data|
      invariant Payloads(level, level.fields, data) == Prepend(list, Payloads(level, level.fields, data[pos..]))
    {
      ghost var start := pos;
      ghost var rest := data[pos..];
      NextFails(level, level.fields, rest);
      PayloadsStep(level, level.fields, rest);
      var tag := ConsumeTag(data[pos..]);
      if tag.Malformed? {
        return [], Some(MalformedTag(level.message));
      }
      pos := pos + tag.n;
      assert data[pos..] == rest[tag.n..];
      if tag.value.num in level.fields && tag.value.wt == BytesType {
        var msg := ConsumeBytes(data[pos..]);
        if msg.Malformed? {
          return [], Some(InvalidBytes(level.message, tag.value.num));
        }
        NextTakes(level, level.fields, rest, tag.value, tag.n, msg.value, msg.n);
        PrependPrepend(list, [msg.value], Payloads(level, level.fields, rest[tag.n + msg.n..]));
        list := list + [msg.value];
        pos := pos + msg.n;
      } else {
        var skipped := SkipField(data[pos..], tag.value.wt);
        if skipped.Malformed? {
          return [], Some(SkipFailed(level.message));
        }
        NextSkips(level, level.fields, rest, tag.value, tag.n, skipped.n);
        PrependPrepend(list, [], Payloads(level, level.fields, rest[tag.n + skipped.n..]));
        assert list + [] == list;
        pos := pos + skipped.n;
      }
      assert data[pos..] == rest[pos - start..];
    }
    assert data[pos..] == [];
    PayloadsEmpty(level, level.fields);
    assert list + [] == list;
    return list, None;
  }

  /** The resource extraction loop: the payload of the first length-delimited
      field 1, without reading past it; the empty payload when there is none. */
  method ExtractResourceMessage(level: Level, data: seq<byte>) returns (resource: seq<byte>, err: Option<Error>)
    ensures FirstPayload(level, data) == Outcome(resource, err)
    ensures err.Some? ==> resource == []
  {
    hide FirstPayload, Next, ConsumeTag, ConsumeBytes, SkipField;
    var pos := 0;
    assert data[pos..] == data;
    while pos < |data|
      invariant pos <= |data|
      invariant FirstPayload(level, data) == FirstPayload(level, data[pos..])
    {
      ghost var start := pos;
      ghost var rest := data[pos..];
      NextFails(level, {1}, rest);
      FirstPayloadStep(level, rest);
      var tag := ConsumeTag(data[pos..]);
      if tag.Malformed? {
        return [], Some(MalformedTag(level.message));
      }
      pos := pos + tag.n;
      assert data[pos..] == rest[tag.n..];
      if tag.value.num == 1 && tag.value.wt == BytesType {
        var msg := ConsumeBytes(data[pos..]);
        if msg.Malformed? {
          return [], Some(InvalidBytes(level.message, 1));
        }
        NextTakes(level, {1}, rest, tag.value, tag.n, msg.value, msg.n);
        return msg.value, None;
      }
      var skipped := SkipField(data[pos..], tag.value.wt);
      if skipped.Malformed? {
        return [], Some(SkipFailed(level.message));
      }
      NextSkips(level, {1}, rest, tag.value, tag.n, skipped.n);
      pos := pos + skipped.n;
      assert data[pos..] == rest[pos - start..];
    }
    assert data[pos..] == [];
    FirstPayloadEmpty(level);
    return [], None;
  }

  /** Wraps one resource message as field 1 of an export request: a tag, then
      the length-delimited bytes. */
  method WrapResource(resource: seq<byte>) returns (buf: seq<byte>)
    ensures buf == EncodeMessage([BytesField(1, resource)])
  {
    buf := [];
    buf := AppendTag(buf, 1, BytesType);
    buf := AppendBytes(buf, resource);
    assert EncodeMessage([BytesField(1, resource)][1..]) == [];
  }
}
