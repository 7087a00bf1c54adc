/**
 * The generic descent engine, as specification functions over the bytes that
 * remain to be read. Every walk of the original program has one shape: while
 * bytes remain, decode a tag; if its field number is one the walk looks for
 * and its wire type is length-delimited, take the payload; otherwise skip the
 * field by its wire type; any failure ends the walk. `Next` is that one step,
 * and `Count`, `Payloads` and `FirstPayload` are the three walks built on it.
 */
module Walker {
  import opened Wire
  import opened Schema

  /** Consumes one field body of wire type wt at the front of b. Groups and the
      undefined wire types 6 and 7 cannot be skipped. */
  function SkipField(b: seq<byte>, wt: WireType): (r: Decoded<()>)
    ensures r.Decoded? ==> 1 <= r.n <= |b|
    ensures wt == VarintType ==> (r.Decoded? <==> ConsumeVarint(b).Decoded?) && (r.Decoded? ==> r.n == ConsumeVarint(b).n)
    ensures wt == BytesType ==> (r.Decoded? <==> ConsumeBytes(b).Decoded?) && (r.Decoded? ==> r.n == ConsumeBytes(b).n)
    ensures wt == Fixed64Type ==> (r.Decoded? <==> |b| >= 8) && (r.Decoded? ==> r.n == 8)
    ensures wt == Fixed32Type ==> (r.Decoded? <==> |b| >= 4) && (r.Decoded? ==> r.n == 4)
    ensures wt in {StartGroupType, EndGroupType, 6, 7} ==> r == Malformed(UnsupportedWireType)
  {
    if wt == VarintType then
      match ConsumeVarint(b)
      case Decoded(_, n) => Decoded((), n)
      case Malformed(e) => Malformed(e)
    else if wt == Fixed64Type then ConsumeFixed64(b)
    else if wt == BytesType then
      match ConsumeBytes(b)
      case Decoded(_, n) => Decoded((), n)
      case Malformed(e) => Malformed(e)
    else if wt == Fixed32Type then ConsumeFixed32(b)
    else Malformed(UnsupportedWireType)
  }

  /** One field read at the front of the remaining bytes: its number, the bytes
      it spans (tag included), and its payload when the walk matched it. */
  datatype Field = Field(num: nat, len: nat, payload: Option<seq<byte>>)

  /** One step of a walk at `level` that looks for the numbers in `nums`. */
  function Next(level: Level, nums: set<nat>, rest: seq<byte>): (r: Result<Field>)
    requires rest != []
    ensures r.Ok? ==> 1 <= r.value.len <= |rest|
    ensures r.Ok? && r.value.payload.Some? ==> r.value.num in nums && |r.value.payload.value| < r.value.len
  {
    match ConsumeTag(rest)
    case Malformed(_) => Err(MalformedTag(level.message))
    case Decoded(tag, tn) =>
      if tag.num in nums && tag.wt == BytesType then
        match ConsumeBytes(rest[tn..])
        case Malformed(_) => Err(InvalidBytes(level.message, tag.num))
        case Decoded(p, n) => Ok(Field(tag.num, tn + n, Some(p)))
      else
        match SkipField(rest[tn..], tag.wt)
        case Malformed(_) => Err(SkipFailed(level.message))
        case Decoded(_, n) => Ok(Field(tag.num, tn + n, None))
  }

  /** The number of leaves below a message at `level`: at a leaf level one per
      matched field, otherwise the sum of the counts of the matched payloads one
      level down. The first failure, in reading order, is the result. */
  function Count(level: Level, rest: seq<byte>): Result<nat>
    decreases |rest|
  {
    if rest == [] then Ok(0)
    else
      match Next(level, level.fields, rest)
      case Err(e) => Err(e)
      case Ok(f) =>
        var here :=
          if f.payload.None? then Ok(0)
          else if level.inner.None? then Ok(1)
          else Count(level.inner.value, f.payload.value);
        match here
        case Err(e) => Err(e)
        case Ok(h) => Plus(h, Count(level, rest[f.len..]))
  }

  /** The payloads of the matched fields, in reading order. */
  function Payloads(level: Level, nums: set<nat>, rest: seq<byte>): Result<seq<seq<byte>>>
    decreases |rest|
  {
    if rest == [] then Ok([])
    else
      match Next(level, nums, rest)
      case Err(e) => Err(e)
      case Ok(f) =>
        Prepend(if f.payload.Some? then [f.payload.value] else [], Payloads(level, nums, rest[f.len..]))
  }

  /** The payload of the first length-delimited field 1; the walk stops there.
      Without one, the empty payload. */
  function FirstPayload(level: Level, rest: seq<byte>): Result<seq<byte>>
    decreases |rest|
  {
    if rest == [] then Ok([])
    else
      match Next(level, {1}, rest)
      case Err(e) => Err(e)
      case Ok(f) => if f.payload.Some? then Ok(f.payload.value) else FirstPayload(level, rest[f.len..])
  }

  /** The counts at `level` of each of ps, added up; the first failure in order. */
  function SumCount(level: Level, ps: seq<seq<byte>>): Result<nat>
    decreases |ps|
  {
    if ps == [] then Ok(0)
    else
      match Count(level, ps[0])
      case Err(e) => Err(e)
      case Ok(c) => Plus(c, SumCount(level, ps[1..]))
  }

  /** p occupies a contiguous range of data. */
  ghost predicate SubRange(p: seq<byte>, data: seq<byte>)
  {
    exists i :: 0 <= i <= |data| && p <= data[i..]
  }

  /** The step, in terms of the codec calls a loop makes. */
  lemma NextTakes(level: Level, nums: set<nat>, rest: seq<byte>, tag: Tag, tn: nat, p: seq<byte>, n: nat)
    requires rest != [] && ConsumeTag(rest) == Decoded(tag, tn)
    requires tag.num in nums && tag.wt == BytesType && ConsumeBytes(rest[tn..]) == Decoded(p, n)
    ensures Next(level, nums, rest) == Ok(Field(tag.num, tn + n, Some(p)))
  {
  }

  lemma NextSkips(level: Level, nums: set<nat>, rest: seq<byte>, tag: Tag, tn: nat, n: nat)
    requires rest != [] && ConsumeTag(rest) == Decoded(tag, tn)
    requires !(tag.num in nums && tag.wt == BytesType)
    requires SkipField(rest[tn..], tag.wt).Decoded? && SkipField(rest[tn..], tag.wt).n == n
    ensures Next(level, nums, rest) == Ok(Field(tag.num, tn + n, None))
  {
    hide ConsumeTag, SkipField;
  }

  lemma NextFails(level: Level, nums: set<nat>, rest: seq<byte>)
    requires rest != []
    ensures ConsumeTag(rest).Malformed? ==> Next(level, nums, rest) == Err(MalformedTag(level.message))
    ensures ConsumeTag(rest).Decoded? && ConsumeTag(rest).value.num in nums && ConsumeTag(rest).value.wt == BytesType
            && ConsumeBytes(rest[ConsumeTag(rest).n..]).Malformed?
            ==> Next(level, nums, rest) == Err(InvalidBytes(level.message, ConsumeTag(rest).value.num))
    ensures ConsumeTag(rest).Decoded? && !(ConsumeTag(rest).value.num in nums && ConsumeTag(rest).value.wt == BytesType)
            && SkipField(rest[ConsumeTag(rest).n..], ConsumeTag(rest).value.wt).Malformed?
            ==> Next(level, nums, rest) == Err(SkipFailed(level.message))
  {
  }

  lemma CountEmpty(level: Level)
    ensures Count(level, []) == Ok(0)
  {
  }

  /** Count, one step unfolded: a failed step fails the count. */
  lemma CountStepFails(level: Level, rest: seq<byte>)
    requires rest != [] && Next(level, level.fields, rest).Err?
    ensures Count(level, rest) == Err(Next(level, level.fields, rest).error)
  {
  }

  /** Count, one step unfolded: what the field read contributes, then the rest. */
  lemma CountStep(level: Level, rest: seq<byte>, f: Field)
    requires rest != [] && Next(level, level.fields, rest) == Ok(f)
    ensures f.payload.None? ==> Count(level, rest) == Count(level, rest[f.len..])
    ensures f.payload.Some? && level.inner.None? ==> Count(level, rest) == Plus(1, Count(level, rest[f.len..]))
    ensures f.payload.Some? && level.inner.Some? && Count(level.inner.value, f.payload.value).Err? ==>
              Count(level, rest) == Count(level.inner.value, f.payload.value)
    ensures f.payload.Some? && level.inner.Some? && Count(level.inner.value, f.payload.value).Ok? ==>
              Count(level, rest) == Plus(Count(level.inner.value, f.payload.value).value, Count(level, rest[f.len..]))
  {
    if f.payload.None? {
      match Count(level, rest[f.len..])
      case Ok(_) =>
      case Err(_) =>
    }
  }

  lemma PayloadsEmpty(level: Level, nums: set<nat>)
    ensures Payloads(level, nums, []) == Ok([])
  {
  }

  /** Payloads, one step unfolded. */
  lemma PayloadsStep(level: Level, nums: set<nat>, rest: seq<byte>)
    requires rest != []
    ensures Next(level, nums, rest).Err? ==> Payloads(level, nums, rest) == Err(Next(level, nums, rest).error)
    ensures Next(level, nums, rest).Ok? ==>
              var f := Next(level, nums, rest).value;
              Payloads(level, nums, rest)
              == Prepend(if f.payload.Some? then [f.payload.value] else [], Payloads(level, nums, rest[f.len..]))
  {
  }

  lemma FirstPayloadEmpty(level: Level)
    ensures FirstPayload(level, []) == Ok([])
  {
  }

  /** FirstPayload, one step unfolded. */
  lemma FirstPayloadStep(level: Level, rest: seq<byte>)
    requires rest != []
    ensures Next(level, {1}, rest).Err? ==> FirstPayload(level, rest) == Err(Next(level, {1}, rest).error)
    ensures Next(level, {1}, rest).Ok? ==>
              var f := Next(level, {1}, rest).value;
              FirstPayload(level, rest) == if f.payload.Some? then Ok(f.payload.value) else FirstPayload(level, rest[f.len..])
  {
  }

  /** A leaf count is the number of matched fields: no payload is looked into,
      and the walk fails exactly when the list of payloads does, with the same error. */
  lemma {:induction false} LeafCountIsPayloadCount(level: Level, rest: seq<byte>)
    requires level.inner.None?
    ensures Count(level, rest) == Size(Payloads(level, level.fields, rest))
    decreases |rest|
  {
    if rest != [] {
      var r := Next(level, level.fields, rest);
      if r.Ok? {
        var f := r.value;
        LeafCountIsPayloadCount(level, rest[f.len..]);
        var tail := Payloads(level, level.fields, rest[f.len..]);
        assert Payloads(level, level.fields, rest)
            == Prepend(if f.payload.Some? then [f.payload.value] else [], tail);
        var here: Result<nat> := if f.payload.None? then Ok(0) else Ok(1);
        assert Count(level, rest) == Plus(here.value, Count(level, rest[f.len..]));
      }
    }
  }

  /** Counting above the leaves succeeds only where the list of payloads does,
      and then equals the sum of the counts of those payloads one level down. */
  lemma {:induction false} CountIsSumOverPayloads(level: Level, rest: seq<byte>)
    requires level.inner.Some?
    ensures Count(level, rest).Ok? ==> Payloads(level, level.fields, rest).Ok?
    ensures Payloads(level, level.fields, rest).Ok? ==>
              Count(level, rest) == SumCount(level.inner.value, Payloads(level, level.fields, rest).value)
    decreases |rest|
  {
    if rest != [] {
      var r := Next(level, level.fields, rest);
      if r.Ok? {
        var f := r.value;
        var child := level.inner.value;
        CountIsSumOverPayloads(level, rest[f.len..]);
        var tail := Payloads(level, level.fields, rest[f.len..]);
        var firsts := if f.payload.Some? then [f.payload.value] else [];
        assert Payloads(level, level.fields, rest) == Prepend(firsts, tail);
        var here := if f.payload.None? then Ok(0) else Count(child, f.payload.value);
        assert Count(level, rest) == if here.Err? then here else Plus(here.value, Count(level, rest[f.len..]));
        if tail.Ok? && f.payload.Some? {
          assert (firsts + tail.value)[0] == f.payload.value;
          assert (firsts + tail.value)[1..] == tail.value;
          assert SumCount(child, firsts + tail.value)
              == if here.Err? then here else Plus(here.value, SumCount(child, tail.value));
        } else if tail.Ok? {
          assert firsts + tail.value == tail.value;
        }
      }
    }
  }

  /** A taken payload is the last bytes of the field read, not a copy from elsewhere. */
  lemma NextPayloadInPlace(level: Level, nums: set<nat>, rest: seq<byte>)
    requires rest != []
    requires Next(level, nums, rest).Ok? && Next(level, nums, rest).value.payload.Some?
    ensures var f := Next(level, nums, rest).value;
            f.payload.value == rest[f.len - |f.payload.value| .. f.len]
  {
    hide ConsumeVarint, SkipField;
    var tag := ConsumeTag(rest);
    var msg := ConsumeBytes(rest[tag.n..]);
    var p, n := msg.value, msg.n;
    assert rest[tag.n..][n - |p| .. n] == rest[tag.n + n - |p| .. tag.n + n];
  }

  /** Every payload is a contiguous range of the walked bytes. */
  lemma {:induction false} PayloadsAreSubRanges(level: Level, nums: set<nat>, rest: seq<byte>)
    requires Payloads(level, nums, rest).Ok?
    ensures forall p <- Payloads(level, nums, rest).value :: SubRange(p, rest)
    decreases |rest|
  {
    if rest != [] {
      match Next(level, nums, rest)
      case Ok(f) =>
        var after := rest[f.len..];
        PayloadsAreSubRanges(level, nums, after);
        forall q | q in Payloads(level, nums, after).value
          ensures SubRange(q, rest)
        {
          var j :| 0 <= j <= |after| && q <= after[j..];
          assert after[j..] == rest[f.len + j..];
        }
        if f.payload.Some? {
          var p := f.payload.value;
          NextPayloadInPlace(level, nums, rest);
          assert p <= rest[f.len - |p|..];
        }
    }
  }

  /** The resource extractor returns the first field-1 payload the splitter
      would list, and the empty payload when the splitter lists none. */
  lemma {:induction false} FirstPayloadIsFirstListed(level: Level, rest: seq<byte>)
    requires Payloads(level, {1}, rest).Ok?
    ensures var ps := Payloads(level, {1}, rest).value;
            FirstPayload(level, rest) == Ok(if ps == [] then [] else ps[0])
    decreases |rest|
  {
    if rest != [] {
      match Next(level, {1}, rest)
      case Ok(f) =>
        if f.payload.None? {
          FirstPayloadIsFirstListed(level, rest[f.len..]);
        }
    }
  }
}
