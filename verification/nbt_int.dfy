/** NbtInt: a tag holding a name and a signed 32-bit value. */
module NbtIntTag {
  import opened NbtTypes
  import opened NbtTag
  import opened NbtStream
  import opened NbtCodec

  class NbtInt {
    var name: Name
    var value: Int32

    /** The tag as a value. */
    function AsTag(): Tag
      reads this
    {
      IntTag(name, value)
    }

    /** The `TagType` property: an NbtInt is of kind Int, written on the
        wire as 3. */
    function Kind(): (k: TagType)
      reads this
      ensures k == KindOf(AsTag()) && Code(k) == 3
    {
      Int
    }

    /** `NbtInt()`: unnamed, value 0. */
    constructor ()
      ensures name == None && value == 0
    {
      name := None;
      value := 0;
    }

    /** `NbtInt(int)`: unnamed, with the given value. */
    constructor WithValue(v: Int32)
      ensures name == None && value == v
    {
      name := None;
      value := v;
    }

    /** `NbtInt(string)`: the given name (possibly null), value 0. */
    constructor WithName(tagName: Name)
      ensures name == tagName && value == 0
    {
      name := tagName;
      value := 0;
    }

    /** `NbtInt(string, int)`: the given name and value. */
    constructor WithNameAndValue(tagName: Name, v: Int32)
      ensures name == tagName && value == v
    {
      name := tagName;
      value := v;
    }

    /** `ReadTag`: the name first when `readName` is set, then the value.
        A failed name read changes nothing; a failed value read leaves the
        name already read in place. */
    method ReadTag(reader: NbtReader, readName: bool) returns (err: Option<NbtError>)
      requires reader.Valid()
      modifies this, reader
      ensures reader.Valid()
      ensures var ns := ReadNameSpec(old(name), reader.tokens, old(reader.pos), readName);
        name == ns.name &&
        (ns.err.Some? ==> err == ns.err && value == old(value) && reader.pos == old(reader.pos)) &&
        (ns.err.None? ==>
          match Int32At(reader.tokens, ns.next)
          case Some(v) => err.None? && value == v && reader.pos == ns.next + 1
          case None => err == Some(StreamError) && value == old(value) && reader.pos == ns.next)
    {
      if readName {
        var s := reader.ReadString();
        if s.Err? {
          return Some(s.error);
        }
        name := Some(s.value);
      }
      var v := reader.ReadInt32();
      if v.Err? {
        return Some(v.error);
      }
      value := v.value;
      return None;
    }

    /** `WriteTag`: the Int kind, then the name if `writeName` is set (a
        null name is a format error, raised after the kind is written),
        then the value. */
    method WriteTag(writer: NbtWriter, writeName: bool) returns (err: Option<NbtError>)
      modifies writer
      ensures var w := EncodeTag(AsTag(), writeName);
        writer.output == old(writer.output) + w.tokens && err == w.err
    {
      writer.WriteTagType(Int);
      if writeName {
        if name.None? {
          return Some(FormatError(NullName));
        }
        writer.WriteString(name.value);
      }
      writer.WriteInt32(value);
      return None;
    }

    /** `WriteData`: the value alone. */
    method WriteData(writer: NbtWriter)
      modifies writer
      ensures EncodePayload(AsTag()).err.None?
      ensures writer.output == old(writer.output) + EncodePayload(AsTag()).tokens
    {
      writer.WriteInt32(value);
    }
  }

  /** `WriteTag` of an Int is the kind, the name exactly when it is asked
      for, and then exactly what `WriteData` emits, which is the value; it
      fails only for a missing name that is asked for. */
  lemma WriteTagLayout(t: Tag, writeName: bool)
    requires t.IntTag?
    ensures var w := EncodeTag(t, writeName);
      (w.err.Some? <==> writeName && t.name.None?) &&
      (w.err.None? ==>
        w.tokens == [KindTok(3)] + (if writeName then [StringTok(t.name.value)] else []) + [Int32Tok(t.value)])
  {
  }

  /** The value written by `WriteData` is what `ReadTag(_, false)` reads back:
      one token, the same value, no name. */
  lemma IntRoundTrip(v: Int32, n: Name, rest: seq<Token>)
    ensures var toks := EncodePayload(IntTag(n, v)).tokens + rest;
      Int32At(toks, 0) == Some(v) &&
      ReadPayload(Int, toks, 0) == PayloadStep(Some(IntTag(None, v)), 1, None)
  {
  }

  /** Writing one NbtInt's data and reading it into another restores the
      value and leaves the reader's name alone. */
  method WriteDataThenRead(source: NbtInt, target: NbtInt)
    modifies target
    ensures target.value == source.value && target.name == old(target.name)
  {
    var w := new NbtWriter();
    source.WriteData(w);
    var r := new NbtReader(w.output);
    var err := target.ReadTag(r, false);
    assert err.None?;
  }
}
