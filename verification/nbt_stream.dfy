/** NbtReader and NbtWriter, seen token by token. Their byte-level
    encodings (endianness, string encoding) are not part of this model: a
    token stands for what one `Read…`/`Write…` call consumes or emits. */
module NbtStream {
  import opened NbtTypes

  datatype Token =
    | KindTok(code: int)                         // Write(NbtTagType) / ReadTagType()
    | Int32Tok(value: Int32)                     // Write(int) / ReadInt32()
    | StringTok(text: string)                    // Write(string) / ReadString()
    | OpaqueTok(kind: OpaqueKind, data: seq<int>) // the payload of a tag class not modelled

  /** The string at `pos`, if the stream holds one there. */
  function StringAt(toks: seq<Token>, pos: nat): Option<string>
  {
    if pos < |toks| && toks[pos].StringTok? then Some(toks[pos].text) else None
  }

  /** The kind code at `pos`, if the stream holds one there. */
  function KindCodeAt(toks: seq<Token>, pos: nat): Option<int>
  {
    if pos < |toks| && toks[pos].KindTok? then Some(toks[pos].code) else None
  }

  /** The 32-bit integer at `pos`, if the stream holds one there. */
  function Int32At(toks: seq<Token>, pos: nat): Option<Int32>
  {
    if pos < |toks| && toks[pos].Int32Tok? then Some(toks[pos].value) else None
  }

  /** The payload of kind `k` at `pos`, if the stream holds one there. */
  function OpaqueAt(toks: seq<Token>, pos: nat, k: OpaqueKind): Option<seq<int>>
  {
    if pos < |toks| && toks[pos].OpaqueTok? && toks[pos].kind == k then Some(toks[pos].data) else None
  }

  /** A source of tokens consumed front to back. A read that does not find
      the expected token fails and consumes nothing. */
  class NbtReader {
    const tokens: seq<Token>
    var pos: nat

    ghost predicate Valid()
      reads this
    {
      pos <= |tokens|
    }

    constructor (input: seq<Token>)
      ensures Valid() && tokens == input && pos == 0
    {
      tokens := input;
      pos := 0;
    }

    method ReadString() returns (r: Result<string, NbtError>)
      requires Valid()
      modifies this
      ensures Valid()
      ensures StringAt(tokens, old(pos)).Some? ==>
        r == Ok(StringAt(tokens, old(pos)).value) && pos == old(pos) + 1
      ensures StringAt(tokens, old(pos)).None? ==> r == Err(StreamError) && pos == old(pos)
    {
      match StringAt(tokens, pos)
      case Some(s) => r := Ok(s); pos := pos + 1;
      case None => r := Err(StreamError);
    }

    method ReadTagType() returns (r: Result<int, NbtError>)
      requires Valid()
      modifies this
      ensures Valid()
      ensures KindCodeAt(tokens, old(pos)).Some? ==>
        r == Ok(KindCodeAt(tokens, old(pos)).value) && pos == old(pos) + 1
      ensures KindCodeAt(tokens, old(pos)).None? ==> r == Err(StreamError) && pos == old(pos)
    {
      match KindCodeAt(tokens, pos)
      case Some(c) => r := Ok(c); pos := pos + 1;
      case None => r := Err(StreamError);
    }

    method ReadInt32() returns (r: Result<Int32, NbtError>)
      requires Valid()
      modifies this
      ensures Valid()
      ensures Int32At(tokens, old(pos)).Some? ==>
        r == Ok(Int32At(tokens, old(pos)).value) && pos == old(pos) + 1
      ensures Int32At(tokens, old(pos)).None? ==> r == Err(StreamError) && pos == old(pos)
    {
      match Int32At(tokens, pos)
      case Some(v) => r := Ok(v); pos := pos + 1;
      case None => r := Err(StreamError);
    }

    /** The payload read of a tag class outside this model. */
    method ReadOpaque(k: OpaqueKind) returns (r: Result<seq<int>, NbtError>)
      requires Valid()
      modifies this
      ensures Valid()
      ensures OpaqueAt(tokens, old(pos), k).Some? ==>
        r == Ok(OpaqueAt(tokens, old(pos), k).value) && pos == old(pos) + 1
      ensures OpaqueAt(tokens, old(pos), k).None? ==> r == Err(StreamError) && pos == old(pos)
    {
      match OpaqueAt(tokens, pos, k)
      case Some(d) => r := Ok(d); pos := pos + 1;
      case None => r := Err(StreamError);
    }
  }

  /** A sink that appends tokens. */
  class NbtWriter {
    var output: seq<Token>

    constructor ()
      ensures output == []
    {
      output := [];
    }

    method WriteTagType(k: TagType)
      modifies this
      ensures output == old(output) + [KindTok(Code(k))]
    {
      output := output + [KindTok(Code(k))];
    }

    method WriteInt32(v: Int32)
      modifies this
      ensures output == old(output) + [Int32Tok(v)]
    {
      output := output + [Int32Tok(v)];
    }

    method WriteString(s: string)
      modifies this
      ensures output == old(output) + [StringTok(s)]
    {
      output := output + [StringTok(s)];
    }

    /** The payload write of a tag class outside this model. */
    method WriteOpaque(k: OpaqueKind, d: seq<int>)
      modifies this
      ensures output == old(output) + [OpaqueTok(k, d)]
    {
      output := output + [OpaqueTok(k, d)];
    }
  }
}
