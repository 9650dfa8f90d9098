/** The binary layout of Int and List tags, as functions over token
    streams. Each function gives the exact effect of one reading or writing
    routine of the tag classes, failures included; the methods of NbtInt and
    NbtList are proved to have these effects, and the properties of the
    format (round trips, rejected inputs) are proved here about the
    functions. */
module NbtCodec {
  import opened NbtTypes
  import opened NbtTag
  import opened NbtStream

  // ---------------------------------------------------------------- reading

  /** The outcome of the optional name read at the start of `ReadTag`. */
  datatype NameStep = NameStep(name: Name, next: nat, err: Option<NbtError>)

  /** The name read of `ReadTag`: nothing happens unless `readName` is set;
      then one string is read and becomes the name, and a failed read
      leaves the old name and the stream position alone. */
  function ReadNameSpec(oldName: Name, toks: seq<Token>, pos: nat, readName: bool): (r: NameStep)
    ensures !readName ==> r.err.None? && r.name == oldName && r.next == pos
    ensures readName && r.err.None? ==> r.name.Some? && StringAt(toks, pos) == r.name && r.next == pos + 1
    ensures r.err.Some? ==> readName && r.err == Some(StreamError) && r.name == oldName && r.next == pos
    ensures readName ==> (r.err.None? <==> StringAt(toks, pos).Some?)
  {
    if !readName then NameStep(oldName, pos, None)
    else match StringAt(toks, pos)
      case Some(s) => NameStep(Some(s), pos + 1, None)
      case None => NameStep(oldName, pos, Some(StreamError))
  }

  /** The outcome of one payload-only element read: the element (none for
      the kinds the per-element switch has no case for), where the stream
      stands afterwards, and the error if the read failed. */
  datatype PayloadStep = PayloadStep(tag: Option<Tag>, next: nat, err: Option<NbtError>)

  /** The outcome of the element loop: the elements read so far (all of
      them on success), the stream position, and the error if any. */
  datatype ElementsRead = ElementsRead(items: seq<Tag>, next: nat, err: Option<NbtError>)

  /** The state `NbtList.ReadTag` leaves behind after the name: the list
      kind, the elements, the stream position, and the error if any. */
  datatype ListRead = ListRead(listType: TagType, items: seq<Tag>, next: nat, err: Option<NbtError>)

  /** One iteration of the per-element switch of `NbtList.ReadTag`: a fresh
      tag of kind `k` reads its payload without a name. */
  function ReadPayload(k: TagType, toks: seq<Token>, pos: nat): (r: PayloadStep)
    requires pos <= |toks|
    ensures pos <= r.next <= |toks|
    ensures r.err.None? ==> (r.tag.None? <==> k == End || k == Unknown)
    ensures r.tag.Some? ==>
      KindOf(r.tag.value) == k && r.tag.value.name.None? && WellFormed(r.tag.value)
    decreases |toks| - pos, 1, 0
  {
    if k == End || k == Unknown then PayloadStep(None, pos, None)
    else if k == Int then
      match Int32At(toks, pos)
      case Some(v) => PayloadStep(Some(IntTag(None, v)), pos + 1, None)
      case None => PayloadStep(None, pos, Some(StreamError))
    else if k == List then
      var l := ReadListSpec(Unknown, [], toks, pos);
      if l.err.Some? then PayloadStep(None, l.next, l.err)
      else PayloadStep(Some(ListTag(None, l.listType, l.items)), l.next, None)
    else
      match OpaqueAt(toks, pos, k)
      case Some(d) => PayloadStep(Some(OpaqueTag(None, k, d)), pos + 1, None)
      case None => PayloadStep(None, pos, Some(StreamError))
  }

  /** The counted loop of `NbtList.ReadTag`: `n` element reads of kind `k`
      in stream order, stopping at the first failure. */
  function ReadElements(k: TagType, n: nat, toks: seq<Token>, pos: nat): (r: ElementsRead)
    requires pos <= |toks|
    ensures pos <= r.next <= |toks|
    ensures |r.items| <= n
    ensures forall i :: 0 <= i < |r.items| ==>
      KindOf(r.items[i]) == k && r.items[i].name.None? && WellFormed(r.items[i])
    decreases |toks| - pos, 2, n
  {
    if n == 0 then ElementsRead([], pos, None)
    else
      var s := ReadPayload(k, toks, pos);
      if s.err.Some? then ElementsRead([], s.next, s.err)
      else
        var rest := ReadElements(k, n - 1, toks, s.next);
        ElementsRead(OptionToSeq(s.tag) + rest.items, rest.next, rest.err)
  }

  function OptionToSeq(o: Option<Tag>): seq<Tag>
  {
    if o.Some? then [o.value] else []
  }

  /** `NbtList.ReadTag` after the name, on a list whose kind is `oldType`
      and whose elements are `oldItems`: the kind goes through the
      `ListType` setter, Unknown and a negative count are format errors,
      then the elements are replaced by what the element loop reads. The
      list invariant holds afterwards, also when the read fails. */
  function ReadListSpec(oldType: TagType, oldItems: seq<Tag>, toks: seq<Token>, pos: nat): (r: ListRead)
    requires pos <= |toks|
    ensures pos <= r.next <= |toks|
    ensures r.err.None? ==> pos + 2 <= r.next <= |toks| && r.listType != Unknown
    ensures WellFormed(ListTag(None, oldType, oldItems)) ==> WellFormed(ListTag(None, r.listType, r.items))
    ensures r.err.None? ==> forall i :: 0 <= i < |r.items| ==> r.items[i].name.None?
    decreases |toks| - pos, 0, 0
  {
    match KindCodeAt(toks, pos)
    case None => ListRead(oldType, oldItems, pos, Some(StreamError))
    case Some(c) =>
      match FromCode(c)
      case None => ListRead(oldType, oldItems, pos + 1, Some(ArgumentOutOfRange))
      case Some(k) =>
        if !AllOfKind(oldItems, k) then ListRead(oldType, oldItems, pos + 1, Some(ArgumentMismatch))
        else if k == Unknown then ListRead(k, oldItems, pos + 1, Some(FormatError(UnrecognizedListType)))
        else match Int32At(toks, pos + 1)
          case None => ListRead(k, oldItems, pos + 1, Some(StreamError))
          case Some(n) =>
            if n < 0 then ListRead(k, oldItems, pos + 2, Some(FormatError(NegativeCount)))
            else
              var e := ReadElements(k, n, toks, pos + 2);
              ListRead(k, e.items, e.next, e.err)
  }

  // ---------------------------------------------------------------- writing

  /** What a write routine emits, and the error it stops with, if any. The
      tokens emitted before a failure stay in the stream. */
  datatype WriteOut = WriteOut(tokens: seq<Token>, err: Option<NbtError>)

  /** `WriteData` of each tag class: the payload alone, without kind or name. */
  function EncodePayload(t: Tag): (w: WriteOut)
    requires WellFormed(t)
    ensures w.err.Some? ==> w.err == Some(FormatError(UnknownListTypeWrite))
    ensures Canonical(t) ==> w.err.None?
    decreases t
  {
    match t
    case IntTag(_, v) => WriteOut([Int32Tok(v)], None)
    case OpaqueTag(_, k, d) => WriteOut([OpaqueTok(k, d)], None)
    case ListTag(_, lt, items) => EncodeList(lt, items)
  }

  /** `NbtList.WriteData`: the element kind, the count, then every element's
      payload in stored order; a list of kind Unknown is refused before
      anything is written. */
  function EncodeList(lt: TagType, items: seq<Tag>): (w: WriteOut)
    requires |items| <= MaxInt32
    requires forall i :: 0 <= i < |items| ==> WellFormed(items[i])
    ensures w.err.Some? ==> w.err == Some(FormatError(UnknownListTypeWrite))
    ensures Canonical(ListTag(None, lt, items)) ==> w.err.None?
    ensures lt == Unknown <==> w == WriteOut([], Some(FormatError(UnknownListTypeWrite)))
    decreases items, 1
  {
    if lt == Unknown then WriteOut([], Some(FormatError(UnknownListTypeWrite)))
    else
      var e := EncodeElements(items);
      WriteOut([KindTok(Code(lt)), Int32Tok(|items|)] + e.tokens, e.err)
  }

  /** The element loop of `NbtList.WriteData`, stopping at the first
      element that fails. */
  function EncodeElements(items: seq<Tag>): (w: WriteOut)
    requires forall i :: 0 <= i < |items| ==> WellFormed(items[i])
    ensures w.err.Some? ==> w.err == Some(FormatError(UnknownListTypeWrite))
    ensures (forall i :: 0 <= i < |items| ==> Canonical(items[i])) ==> w.err.None?
    decreases items, 0
  {
    if items == [] then WriteOut([], None)
    else
      var h := EncodePayload(items[0]);
      if h.err.Some? then h
      else
        var rest := EncodeElements(items[1..]);
        WriteOut(h.tokens + rest.tokens, rest.err)
  }

  /** `WriteTag` of each tag class: the kind, then the name when `writeName`
      is set (a null name is a format error, raised after the kind is
      written), then exactly what `WriteData` emits. */
  function EncodeTag(t: Tag, writeName: bool): (w: WriteOut)
    requires WellFormed(t)
    ensures |w.tokens| >= 1 && w.tokens[0] == KindTok(Code(KindOf(t)))
    ensures writeName && t.name.None? <==> w == WriteOut([KindTok(Code(KindOf(t)))], Some(FormatError(NullName)))
    ensures !(writeName && t.name.None?) ==>
      var named := if writeName then [StringTok(t.name.value)] else [];
      w.tokens == [KindTok(Code(KindOf(t)))] + named + EncodePayload(t).tokens &&
      w.err == EncodePayload(t).err
  {
    var head := [KindTok(Code(KindOf(t)))];
    if writeName && t.name.None? then WriteOut(head, Some(FormatError(NullName)))
    else
      var named := if writeName then [StringTok(t.name.value)] else [];
      var p := EncodePayload(t);
      WriteOut(head + named + p.tokens, p.err)
  }

  // ---------------------------------------------------------------- lemmas

  /** Appending one element to the element loop extends its output by that
      element's payload, as long as no earlier element failed. */
  lemma {:induction false} EncodeElementsSnoc(items: seq<Tag>, x: Tag)
    requires forall i :: 0 <= i < |items| ==> WellFormed(items[i])
    requires WellFormed(x)
    requires EncodeElements(items).err.None?
    ensures EncodeElements(items + [x]) ==
      WriteOut(EncodeElements(items).tokens + EncodePayload(x).tokens, EncodePayload(x).err)
  {
    var s := items + [x];
    assert forall i :: 0 <= i < |s| ==> WellFormed(s[i]) by {
      forall i | 0 <= i < |s| ensures WellFormed(s[i]) {
        if i < |items| { assert s[i] == items[i]; } else { assert s[i] == x; }
      }
    }
    var px := EncodePayload(x);
    if items == [] {
      assert s == [x];
      assert s[1..] == [];
      assert EncodeElements(s) == if px.err.Some? then px else WriteOut(px.tokens + [], None);
      assert EncodeElements(items).tokens + px.tokens == px.tokens;
    } else {
      var h := EncodePayload(items[0]);
      var rest := items[1..];
      var er := EncodeElements(rest);
      assert h.err.None? && EncodeElements(items) == WriteOut(h.tokens + er.tokens, er.err);
      assert s[0] == items[0] && s[1..] == rest + [x];
      EncodeElementsSnoc(rest, x);
      var es := EncodeElements(rest + [x]);
      assert es == WriteOut(er.tokens + px.tokens, px.err);
      assert EncodeElements(s) == WriteOut(h.tokens + es.tokens, es.err);
      assert h.tokens + es.tokens == (h.tokens + er.tokens) + px.tokens;
    }
  }

  /** Once an element fails, the elements after it are not written. */
  lemma {:induction false} EncodeElementsStops(items: seq<Tag>, more: seq<Tag>)
    requires forall i :: 0 <= i < |items| ==> WellFormed(items[i])
    requires forall i :: 0 <= i < |more| ==> WellFormed(more[i])
    requires EncodeElements(items).err.Some?
    ensures EncodeElements(items + more) == EncodeElements(items)
  {
    assert items != [];
    assert (items + more)[0] == items[0];
    if EncodePayload(items[0]).err.None? {
      assert (items + more)[1..] == items[1..] + more;
      EncodeElementsStops(items[1..], more);
    }
  }

  /** Reading back what `WriteData` wrote restores the tag, without its
      name, and consumes exactly the written tokens. */
  lemma {:induction false} RoundTripPayload(t: Tag, toks: seq<Token>, pos: nat)
    requires Canonical(t)
    requires pos + |EncodePayload(t).tokens| <= |toks|
    requires toks[pos..pos + |EncodePayload(t).tokens|] == EncodePayload(t).tokens
    ensures EncodePayload(t).err.None?
    ensures ReadPayload(KindOf(t), toks, pos) ==
      PayloadStep(Some(Unnamed(t)), pos + |EncodePayload(t).tokens|, None)
    decreases t, 2
  {
    var enc := EncodePayload(t).tokens;
    match t
    case IntTag(_, v) =>
      assert toks[pos] == enc[0];
    case OpaqueTag(_, k, d) =>
      assert toks[pos] == enc[0];
    case ListTag(_, lt, items) =>
      RoundTripList(Unknown, [], lt, items, toks, pos);
  }

  /** Reading back what the element loop wrote restores the elements. */
  lemma {:induction false} RoundTripElements(lt: TagType, items: seq<Tag>, toks: seq<Token>, pos: nat)
    requires forall i :: 0 <= i < |items| ==>
      KindOf(items[i]) == lt && items[i].name.None? && Canonical(items[i]) && WellFormed(items[i])
    requires pos + |EncodeElements(items).tokens| <= |toks|
    requires toks[pos..pos + |EncodeElements(items).tokens|] == EncodeElements(items).tokens
    ensures EncodeElements(items).err.None?
    ensures ReadElements(lt, |items|, toks, pos) ==
      ElementsRead(items, pos + |EncodeElements(items).tokens|, None)
    decreases items, 1
  {
    if items != [] {
      var q := ElementsHead(lt, items, toks, pos);
      RoundTripElements(lt, items[1..], toks, q);
      ReadElementsCons(lt, items, toks, pos, q, pos + |EncodeElements(items).tokens|);
    }
  }

  /** The first element of a written element sequence reads back, and the
      rest of the sequence is written right after it. */
  lemma ElementsHead(lt: TagType, items: seq<Tag>, toks: seq<Token>, pos: nat) returns (q: nat)
    requires items != []
    requires forall i :: 0 <= i < |items| ==>
      KindOf(items[i]) == lt && items[i].name.None? && Canonical(items[i]) && WellFormed(items[i])
    requires pos + |EncodeElements(items).tokens| <= |toks|
    requires toks[pos..pos + |EncodeElements(items).tokens|] == EncodeElements(items).tokens
    ensures pos <= q <= |toks|
    ensures ReadPayload(lt, toks, pos) == PayloadStep(Some(items[0]), q, None)
    ensures forall i :: 0 <= i < |items[1..]| ==>
      KindOf(items[1..][i]) == lt && items[1..][i].name.None? && Canonical(items[1..][i]) && WellFormed(items[1..][i])
    ensures q + |EncodeElements(items[1..]).tokens| == pos + |EncodeElements(items).tokens|
    ensures toks[q..q + |EncodeElements(items[1..]).tokens|] == EncodeElements(items[1..]).tokens
    ensures EncodeElements(items).err == EncodeElements(items[1..]).err
    decreases items, 0
  {
    var x, rest := items[0], items[1..];
    ElementsTail(lt, items);
    var ex := EncodePayload(x).tokens;
    var er := EncodeElements(rest).tokens;
    assert EncodeElements(items).tokens == ex + er;
    q := pos + |ex|;
    SliceSplit(toks, pos, ex, er);
    RoundTripPayload(x, toks, pos);
    assert Unnamed(x) == x;
  }

  /** The element conditions of the round trip hold for the first element
      and for the rest. */
  lemma ElementsTail(lt: TagType, items: seq<Tag>)
    requires items != []
    requires forall i :: 0 <= i < |items| ==>
      KindOf(items[i]) == lt && items[i].name.None? && Canonical(items[i]) && WellFormed(items[i])
    ensures forall i :: 0 <= i < |items[1..]| ==>
      KindOf(items[1..][i]) == lt && items[1..][i].name.None? && Canonical(items[1..][i]) && WellFormed(items[1..][i])
  {
    forall i | 0 <= i < |items[1..]|
      ensures KindOf(items[1..][i]) == lt && items[1..][i].name.None? && Canonical(items[1..][i]) && WellFormed(items[1..][i])
    {
      assert items[1..][i] == items[i + 1];
    }
  }

  /** A window of the stream holding `a + b` holds `a`, then `b`. */
  lemma SliceSplit(toks: seq<Token>, pos: nat, a: seq<Token>, b: seq<Token>)
    requires pos + |a + b| <= |toks|
    requires toks[pos..pos + |a + b|] == a + b
    ensures toks[pos..pos + |a|] == a
    ensures toks[pos + |a|..pos + |a| + |b|] == b
  {
    assert toks[pos..pos + |a|] == toks[pos..pos + |a + b|][..|a|];
    assert toks[pos + |a|..pos + |a| + |b|] == toks[pos..pos + |a + b|][|a|..];
  }

  /** One unfolding of the element loop after a successful element read. */
  lemma ReadElementsCons(k: TagType, items: seq<Tag>, toks: seq<Token>, pos: nat, q: nat, p2: nat)
    requires items != [] && pos <= q <= |toks|
    requires ReadPayload(k, toks, pos) == PayloadStep(Some(items[0]), q, None)
    requires ReadElements(k, |items| - 1, toks, q) == ElementsRead(items[1..], p2, None)
    ensures ReadElements(k, |items|, toks, pos) == ElementsRead(items, p2, None)
  {
    assert [items[0]] + items[1..] == items;
  }

  /** Reading back what `NbtList.WriteData` wrote, into a list whose old
      elements the setter accepts, restores the kind and the elements. */
  lemma {:induction false} RoundTripList(oldType: TagType, oldItems: seq<Tag>, lt: TagType, items: seq<Tag>,
                                         toks: seq<Token>, pos: nat)
    requires Canonical(ListTag(None, lt, items))
    requires AllOfKind(oldItems, lt)
    requires forall i :: 0 <= i < |items| ==> WellFormed(items[i])
    requires pos + |EncodeList(lt, items).tokens| <= |toks|
    requires toks[pos..pos + |EncodeList(lt, items).tokens|] == EncodeList(lt, items).tokens
    ensures EncodeList(lt, items).err.None?
    ensures ReadListSpec(oldType, oldItems, toks, pos) ==
      ListRead(lt, items, pos + |EncodeList(lt, items).tokens|, None)
    decreases items, 2
  {
    var all := EncodeList(lt, items).tokens;
    var body := EncodeElements(items).tokens;
    assert toks[pos] == all[0] == KindTok(Code(lt));
    assert toks[pos + 1] == all[1] == Int32Tok(|items|);
    FromCodeOfCode(lt);
    forall i | 0 <= i < |items|
      ensures KindOf(items[i]) == lt && items[i].name.None? && Canonical(items[i]) && WellFormed(items[i])
    {
    }
    assert toks[pos + 2..pos + 2 + |body|] == all[2..];
    RoundTripElements(lt, items, toks, pos + 2);
  }

  /** A successful element loop of any kind other than End yields exactly
      `count` elements, one per pass. */
  lemma {:induction false} ReadElementsCount(k: TagType, n: nat, toks: seq<Token>, pos: nat)
    requires pos <= |toks|
    requires k != End && k != Unknown
    ensures ReadElements(k, n, toks, pos).err.None? ==> |ReadElements(k, n, toks, pos).items| == n
    decreases n
  {
    if n > 0 {
      var s := ReadPayload(k, toks, pos);
      if s.err.None? {
        ReadElementsCount(k, n - 1, toks, s.next);
        assert s.tag.Some?;
      }
    }
  }

  /** A successful read of a list takes its kind from the first token,
      and, for any kind other than End, holds exactly the non-negative
      count that follows the kind on the wire. */
  lemma ReadListCount(oldType: TagType, oldItems: seq<Tag>, toks: seq<Token>, pos: nat)
    requires pos <= |toks|
    ensures var r := ReadListSpec(oldType, oldItems, toks, pos);
      r.err.None? ==>
        KindCodeAt(toks, pos).Some? && FromCode(KindCodeAt(toks, pos).value) == Some(r.listType)
    ensures var r := ReadListSpec(oldType, oldItems, toks, pos);
      r.err.None? && r.listType != End ==>
        Int32At(toks, pos + 1).Some? && Int32At(toks, pos + 1).value >= 0 &&
        |r.items| == Int32At(toks, pos + 1).value
  {
    var r := ReadListSpec(oldType, oldItems, toks, pos);
    if r.err.None? && r.listType != End {
      var n := Int32At(toks, pos + 1).value;
      ReadElementsCount(r.listType, n, toks, pos + 2);
    }
  }

  /** A failure inside a nested list leaves the stream where the nested
      read stopped: for a list of one Int list of one Int whose value is
      missing, both kinds and both counts are consumed before the failure. */
  lemma NestedFailurePosition()
    ensures var toks := [KindTok(Code(List)), Int32Tok(1), KindTok(Code(Int)), Int32Tok(1)];
      ReadListSpec(Unknown, [], toks, 0) == ListRead(List, [], 4, Some(StreamError))
  {
    var toks := [KindTok(Code(List)), Int32Tok(1), KindTok(Code(Int)), Int32Tok(1)];
    FromCodeOfCode(List);
    FromCodeOfCode(Int);
    assert ReadListSpec(Unknown, [], toks, 2) == ListRead(Int, [], 4, Some(StreamError));
  }

  /** A list of element kind End is read without consuming any element:
      the per-element switch has no case for End, so whatever the count,
      the list ends up empty. */
  lemma {:induction false} EndListReadsNothing(n: nat, toks: seq<Token>, pos: nat)
    requires pos <= |toks|
    ensures ReadElements(End, n, toks, pos) == ElementsRead([], pos, None)
  {
    if n > 0 {
      EndListReadsNothing(n - 1, toks, pos);
    }
  }

  /** The read of a List tag of kind End with a non-negative count succeeds
      with no elements. */
  lemma EndListIsEmpty(oldType: TagType, n: Int32, rest: seq<Token>)
    requires n >= 0
    ensures var toks := [KindTok(Code(End)), Int32Tok(n)] + rest;
      ReadListSpec(oldType, [], toks, 0) == ListRead(End, [], 2, None)
  {
    var toks := [KindTok(Code(End)), Int32Tok(n)] + rest;
    EndListReadsNothing(n, toks, 2);
  }

  /** An element kind of Unknown on the wire is a format error, raised after
      the setter has stored it. */
  lemma ReadRejectsUnknown(oldType: TagType, rest: seq<Token>)
    ensures ReadListSpec(oldType, [], [KindTok(Code(Unknown))] + rest, 0) ==
      ListRead(Unknown, [], 1, Some(FormatError(UnrecognizedListType)))
  {
  }

  /** A negative count is a format error; the elements are left as they were. */
  lemma ReadRejectsNegativeCount(oldType: TagType, oldItems: seq<Tag>, k: TagType, n: Int32, rest: seq<Token>)
    requires k != Unknown && n < 0 && AllOfKind(oldItems, k)
    ensures ReadListSpec(oldType, oldItems, [KindTok(Code(k)), Int32Tok(n)] + rest, 0) ==
      ListRead(k, oldItems, 2, Some(FormatError(NegativeCount)))
  {
    FromCodeOfCode(k);
  }

  /** An undefined kind code is refused by the setter: nothing changes. */
  lemma ReadRejectsUndefinedKind(oldType: TagType, oldItems: seq<Tag>, c: int, rest: seq<Token>)
    requires FromCode(c).None?
    ensures ReadListSpec(oldType, oldItems, [KindTok(c)] + rest, 0) ==
      ListRead(oldType, oldItems, 1, Some(ArgumentOutOfRange))
  {
  }

  /** A named tag written with its name is read back, after the caller has
      consumed the kind, as the same name followed by the same payload. */
  lemma NamedRoundTrip(t: Tag, oldName: Name)
    requires Canonical(t) && t.name.Some?
    ensures var w := EncodeTag(t, true);
      w.err.None? &&
      ReadNameSpec(oldName, w.tokens, 1, true) == NameStep(t.name, 2, None) &&
      ReadPayload(KindOf(t), w.tokens, 2) == PayloadStep(Some(Unnamed(t)), |w.tokens|, None)
  {
    var w := EncodeTag(t, true);
    assert w.tokens[2..2 + |EncodePayload(t).tokens|] == EncodePayload(t).tokens;
    RoundTripPayload(t, w.tokens, 2);
  }
}
