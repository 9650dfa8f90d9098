/** NbtList: a named list of unnamed tags that all share one element kind.
    The kind starts Unknown, is fixed by the first element added, and is
    checked on every add, insert, set and kind change. */
module NbtListTag {
  import opened NbtTypes
  import opened NbtTag
  import opened NbtStream
  import opened NbtCodec
  import opened NbtIntTag
  import opened NbtQuery

  /** The `foreach` checks of the constructor and the `ListType` setter:
      whether every tag in `s` is of kind `k`. */
  method CheckAllOfKind(s: seq<Tag>, k: TagType) returns (ok: bool)
    ensures ok <==> AllOfKind(s, k)
  {
    var i := 0;
    while i < |s|
      invariant 0 <= i <= |s|
      invariant forall j :: 0 <= j < i ==> KindOf(s[j]) == k
    {
      if KindOf(s[i]) != k {
        return false;
      }
      i := i + 1;
    }
    return true;
  }

  /** `WriteData` dispatched on the kind of a list element. */
  method WritePayload(writer: NbtWriter, t: Tag) returns (err: Option<NbtError>)
    requires WellFormed(t)
    modifies writer
    ensures writer.output == old(writer.output) + EncodePayload(t).tokens
    ensures err == EncodePayload(t).err
    decreases t
  {
    if t.IntTag? {
      var x := new NbtInt.WithNameAndValue(t.name, t.value);
      x.WriteData(writer);
      err := None;
    } else if t.OpaqueTag? {
      writer.WriteOpaque(t.kind, t.data);
      err := None;
    } else {
      err := WriteListData(writer, t.listType, t.items);
    }
  }

  /** The body of `NbtList.WriteData`, for a list of kind `lt` holding
      `items`: refuse an Unknown kind, then write the kind, the count and
      the elements. */
  method WriteListData(writer: NbtWriter, lt: TagType, items: seq<Tag>) returns (err: Option<NbtError>)
    requires |items| <= MaxInt32
    requires forall i :: 0 <= i < |items| ==> WellFormed(items[i])
    modifies writer
    ensures writer.output == old(writer.output) + EncodeList(lt, items).tokens
    ensures err == EncodeList(lt, items).err
    decreases items, 1
  {
    if lt == Unknown {
      return Some(FormatError(UnknownListTypeWrite));
    }
    writer.WriteTagType(lt);
    writer.WriteInt32(|items|);
    err := WriteElements(writer, items);
  }

  /** The element loop of `NbtList.WriteData`: each element's payload in
      stored order, stopping at the first element that fails. */
  method WriteElements(writer: NbtWriter, items: seq<Tag>) returns (err: Option<NbtError>)
    requires forall i :: 0 <= i < |items| ==> WellFormed(items[i])
    modifies writer
    ensures writer.output == old(writer.output) + EncodeElements(items).tokens
    ensures err == EncodeElements(items).err
    decreases items, 0
  {
    var i := 0;
    while i < |items|
      invariant 0 <= i <= |items| && Written(items, i).err.None?
      invariant writer.output == old(writer.output) + Written(items, i).tokens
    {
      WrittenStep(items, i);
      var e := WritePayload(writer, items[i]);
      if e.Some? {
        return e;
      }
      i := i + 1;
    }
    WrittenStops(items, i);
    return None;
  }

  /** What the element loop has written after its first `i` elements. */
  ghost function Written(items: seq<Tag>, i: nat): WriteOut
    requires forall j :: 0 <= j < |items| ==> WellFormed(items[j])
    requires i <= |items|
  {
    var done := items[..i];
    assert forall j :: 0 <= j < |done| ==> WellFormed(done[j]) by {
      forall j | 0 <= j < |done| ensures WellFormed(done[j]) {
        assert done[j] == items[j];
      }
    }
    EncodeElements(done)
  }

  /** One more element extends what the loop has written by its payload. */
  lemma WrittenStep(items: seq<Tag>, i: nat)
    requires forall j :: 0 <= j < |items| ==> WellFormed(items[j])
    requires i < |items| && Written(items, i).err.None?
    ensures Written(items, i + 1) ==
      WriteOut(Written(items, i).tokens + EncodePayload(items[i]).tokens, EncodePayload(items[i]).err)
    ensures EncodePayload(items[i]).err.Some? ==> EncodeElements(items) == Written(items, i + 1)
  {
    WrittenSnoc(items, i);
    if EncodePayload(items[i]).err.Some? {
      WrittenStops(items, i + 1);
    }
  }

  lemma WrittenSnoc(items: seq<Tag>, i: nat)
    requires forall j :: 0 <= j < |items| ==> WellFormed(items[j])
    requires i < |items| && Written(items, i).err.None?
    ensures Written(items, i + 1) ==
      WriteOut(Written(items, i).tokens + EncodePayload(items[i]).tokens, EncodePayload(items[i]).err)
  {
    assert items[..i + 1] == items[..i] + [items[i]];
    EncodeElementsSnoc(items[..i], items[i]);
  }

  /** The loop's output after a failing element, or after the last
      element, is the output of the whole loop. */
  lemma WrittenStops(items: seq<Tag>, i: nat)
    requires forall j :: 0 <= j < |items| ==> WellFormed(items[j])
    requires i <= |items| && (i == |items| || Written(items, i).err.Some?)
    ensures EncodeElements(items) == Written(items, i)
  {
    if i == |items| {
      assert items[..i] == items;
    } else {
      var done, more := items[..i], items[i..];
      assert forall j :: 0 <= j < |more| ==> WellFormed(more[j]) by {
        forall j | 0 <= j < |more| ensures WellFormed(more[j]) {
          assert more[j] == items[i + j];
        }
      }
      assert forall j :: 0 <= j < |done| ==> WellFormed(done[j]) by {
        forall j | 0 <= j < |done| ensures WellFormed(done[j]) {
          assert done[j] == items[j];
        }
      }
      EncodeElementsStops(done, more);
      assert done + more == items;
    }
  }

  /** The elements read so far, put in front of what the rest of the
      element loop reads. */
  function Prepended(done: seq<Tag>, rest: ElementsRead): ElementsRead
  {
    ElementsRead(done + rest.items, rest.next, rest.err)
  }

  /** The element loop of `NbtList.ReadTag`: `n` payload-only reads into
      fresh tags of kind `k`, stopping at the first that fails. */
  method ReadElementsInto(reader: NbtReader, k: TagType, n: nat) returns (items: seq<Tag>, err: Option<NbtError>)
    requires reader.Valid()
    modifies reader
    ensures reader.Valid()
    ensures var r := ReadElements(k, n, reader.tokens, old(reader.pos));
      items == r.items && err == r.err && reader.pos == r.next
    decreases |reader.tokens| - reader.pos, 3
  {
    ghost var whole := ReadElements(k, n, reader.tokens, reader.pos);
    items := [];
    var i := 0;
    while i < n
      invariant 0 <= i <= n
      invariant reader.Valid() && old(reader.pos) <= reader.pos
      invariant whole == Prepended(items, ReadElements(k, n - i, reader.tokens, reader.pos))
    {
      ghost var p, m := reader.pos, n - i;
      var tag, e := ReadElement(reader, k);
      ReadElementsStep(items, whole, k, m, reader.tokens, p, tag, e, reader.pos);
      if e.Some? {
        return items, e;
      }
      items := items + OptionToSeq(tag);
      i := i + 1;
      assert n - i == m - 1;
    }
    assert items + [] == items;
    return items, None;
  }

  /** One pass of the element loop, as the loop's invariant sees it: a
      failed element read ends the loop with what was read before it; a
      successful one moves the element from what is still to be read to
      what has been read. */
  lemma ReadElementsStep(items: seq<Tag>, whole: ElementsRead, k: TagType, m: nat, toks: seq<Token>, pos: nat,
                         tag: Option<Tag>, e: Option<NbtError>, next: nat)
    requires 0 < m && pos <= |toks|
    requires whole == Prepended(items, ReadElements(k, m, toks, pos))
    requires var s := ReadPayload(k, toks, pos);
      tag == s.tag && e == s.err && next == s.next
    ensures e.Some? ==> items == whole.items && e == whole.err && next == whole.next
    ensures e.None? ==>
      pos <= next <= |toks| &&
      whole == Prepended(items + OptionToSeq(tag), ReadElements(k, m - 1, toks, next))
  {
    var r := ReadElements(k, m, toks, pos);
    if e.Some? {
      assert r == ElementsRead([], next, e);
      assert items + [] == items;
    } else {
      var rest := ReadElements(k, m - 1, toks, next);
      assert r.items == OptionToSeq(tag) + rest.items;
      assert items + r.items == (items + OptionToSeq(tag)) + rest.items;
    }
  }

  /** One iteration of the element loop: a fresh tag of kind `k` (an
      NbtInt, an NbtList, or one of the other tag classes) reads its
      payload without a name; an End kind reads nothing. */
  method ReadElement(reader: NbtReader, k: TagType) returns (tag: Option<Tag>, err: Option<NbtError>)
    requires reader.Valid()
    modifies reader
    ensures reader.Valid()
    ensures var r := ReadPayload(k, reader.tokens, old(reader.pos));
      tag == r.tag && err == r.err && reader.pos == r.next
    decreases |reader.tokens| - reader.pos, 2
  {
    if k == Int {
      var t := new NbtInt();
      err := t.ReadTag(reader, false);
      tag := if err.None? then Some(t.AsTag()) else None;
    } else if k == List {
      var l := new NbtList.Empty(None);
      err := l.ReadTag(reader, false);
      tag := if err.None? then Some(l.AsTag()) else None;
    } else if k != End && k != Unknown {
      var d := reader.ReadOpaque(k);
      if d.Err? {
        return None, Some(d.error);
      }
      return Some(OpaqueTag(None, k, d.value)), None;
    } else {
      return None, None;
    }
  }

  /** The kind `AddRange` ends up checking against: the list's kind, or
      the first new tag's kind if the list's kind is still Unknown. */
  function EffectiveType(lt: TagType, newTags: seq<Tag>): (r: TagType)
    ensures newTags == [] || lt != Unknown ==> r == lt
    ensures newTags != [] ==> r != Unknown
    ensures newTags != [] ==>
      (KindOf(newTags[0]) == r <==> lt == Unknown || KindOf(newTags[0]) == lt)
  {
    if lt == Unknown && newTags != [] then KindOf(newTags[0]) else lt
  }

  class NbtList {
    var name: Name
    var tags: seq<Tag>
    var listType: TagType

    /** The list as a value. */
    function AsTag(): Tag
      reads this
    {
      ListTag(name, listType, tags)
    }

    /** The list invariant: every element is of kind `listType` (so a
        non-empty list never has kind Unknown), and every element is itself
        well formed. */
    ghost predicate Valid()
      reads this
    {
      WellFormed(AsTag())
    }

    /** The `TagType` property: an NbtList is of kind List, written on the
        wire as 9. */
    function Kind(): (k: TagType)
      reads this
      ensures k == KindOf(AsTag()) && Code(k) == 9
    {
      List
    }

    /** `NbtList()` and `NbtList(string)`: empty, of kind Unknown. */
    constructor Empty(tagName: Name)
      ensures Valid()
      ensures name == tagName && tags == [] && listType == Unknown
    {
      name := tagName;
      tags := [];
      listType := Unknown;
    }

    /** The constructor every other one delegates to: an undefined kind is
        refused; given tags are taken over, and a kind of Unknown is then
        inferred from the first of them; every tag must be of the
        resulting kind. A null tag collection is an empty one. */
    static method Create(tagName: Name, given: Option<seq<Tag>>, givenListType: int) returns (r: Result<NbtList, NbtError>)
      requires given.Some? ==> |given.value| <= MaxInt32
      requires given.Some? ==> forall i :: 0 <= i < |given.value| ==> WellFormed(given.value[i])
      ensures FromCode(givenListType).None? ==> r == Err(ArgumentOutOfRange)
      ensures FromCode(givenListType).Some? ==>
        var s := if given.Some? then given.value else [];
        var lt := EffectiveType(FromCode(givenListType).value, s);
        (r.Ok? <==> AllOfKind(s, lt)) &&
        (r.Err? ==> r.error == ArgumentMismatch) &&
        (r.Ok? ==>
          fresh(r.value) && r.value.Valid() &&
          r.value.name == tagName && r.value.tags == s && r.value.listType == lt)
    {
      var k := FromCode(givenListType);
      if k.None? {
        return Err(ArgumentOutOfRange);
      }
      var lt := k.value;
      var s := if given.Some? then given.value else [];
      if s != [] {
        if lt == Unknown {
          lt := KindOf(s[0]);
        }
        var ok := CheckAllOfKind(s, lt);
        if !ok {
          return Err(ArgumentMismatch);
        }
      }
      var list := new NbtList.Empty(tagName);
      list.tags := s;
      list.listType := lt;
      return Ok(list);
    }

    /** The constructors whose tag collection may not be null
        (`NbtList(IEnumerable)`, `NbtList(string, IEnumerable)`,
        `NbtList(IEnumerable, NbtTagType)`): the delegated constructor runs
        first, then a null collection is refused. */
    static method CreateFromTags(tagName: Name, given: Option<seq<Tag>>, givenListType: int) returns (r: Result<NbtList, NbtError>)
      requires given.Some? ==> |given.value| <= MaxInt32
      requires given.Some? ==> forall i :: 0 <= i < |given.value| ==> WellFormed(given.value[i])
      ensures FromCode(givenListType).None? ==> r == Err(ArgumentOutOfRange)
      ensures FromCode(givenListType).Some? && given.None? ==> r == Err(ArgumentNull)
      ensures given.Some? && FromCode(givenListType).Some? ==>
        var lt := EffectiveType(FromCode(givenListType).value, given.value);
        (r.Ok? <==> AllOfKind(given.value, lt)) &&
        (r.Err? ==> r.error == ArgumentMismatch) &&
        (r.Ok? ==>
          fresh(r.value) && r.value.Valid() &&
          r.value.name == tagName && r.value.tags == given.value && r.value.listType == lt)
    {
      r := Create(tagName, given, givenListType);
      if r.Ok? && given.None? {
        r := Err(ArgumentNull);
      }
    }

    /** The `ListType` setter: an undefined kind is out of range, a kind
        that some element does not have is refused; otherwise the kind is
        replaced. On an empty list every defined kind is accepted,
        including Unknown. The elements never change. */
    method SetListType(code: int) returns (err: Option<NbtError>)
      requires Valid()
      modifies this`listType
      ensures Valid() && tags == old(tags)
      ensures FromCode(code).None? ==> err == Some(ArgumentOutOfRange) && listType == old(listType)
      ensures FromCode(code).Some? ==>
        (err.None? <==> AllOfKind(tags, FromCode(code).value)) &&
        (err.None? ==> listType == FromCode(code).value) &&
        (err.Some? ==> err == Some(ArgumentMismatch) && listType == old(listType))
    {
      var k := FromCode(code);
      if k.None? {
        return Some(ArgumentOutOfRange);
      }
      var ok := CheckAllOfKind(tags, k.value);
      if !ok {
        return Some(ArgumentMismatch);
      }
      listType := k.value;
      return None;
    }

    /** The indexer getter. */
    function Get(index: int): (r: Result<Tag, NbtError>)
      reads this
      ensures r.Ok? <==> 0 <= index < |tags|
      ensures r.Ok? ==> r.value == tags[index]
      ensures r.Ok? && Valid() ==> KindOf(r.value) == listType && WellFormed(r.value)
      ensures r.Err? ==> r.error == ArgumentOutOfRange
    {
      if 0 <= index < |tags| then Ok(tags[index]) else Err(ArgumentOutOfRange)
    }

    /** `Get<T>`: the element at `index`, cast to the tag class of kind
        `expected` (None for NbtTag itself, which every element is). */
    function GetAs(index: int, expected: Option<TagType>): (r: Result<Tag, NbtError>)
      reads this
      ensures r.Ok? <==> 0 <= index < |tags| && (expected.None? || KindOf(tags[index]) == expected.value)
      ensures r.Ok? ==> r.value == tags[index]
      ensures r.Err? ==> (r.error == ArgumentOutOfRange <==> !(0 <= index < |tags|))
      ensures r.Err? ==> r.error == ArgumentOutOfRange || r.error == InvalidCast
      ensures Valid() && 0 <= index < |tags| && expected.Some? ==> (r.Ok? <==> expected.value == listType)
    {
      if !(0 <= index < |tags|) then Err(ArgumentOutOfRange)
      else if expected.None? || KindOf(tags[index]) == expected.value then Ok(tags[index])
      else Err(InvalidCast)
    }

    /** The indexer setter. On a list of kind Unknown the kind is taken
        from `value` before the index is checked, so an out-of-range call
        on an empty Unknown list still fixes the kind; on a list of known
        kind a tag of another kind is refused and nothing changes. */
    method Set(index: int, value: Tag) returns (err: Option<NbtError>)
      requires Valid() && WellFormed(value)
      modifies this`listType, this`tags
      ensures Valid()
      ensures listType == if old(listType) == Unknown then KindOf(value) else old(listType)
      ensures old(listType) != Unknown && KindOf(value) != old(listType) ==>
        err == Some(ArgumentMismatch) && tags == old(tags)
      ensures old(listType) == Unknown || KindOf(value) == old(listType) ==>
        if 0 <= index < |old(tags)|
        then err.None? && tags == old(tags)[index := value]
        else err == Some(ArgumentOutOfRange) && tags == old(tags)
    {
      if listType == Unknown {
        listType := KindOf(value);
      } else if KindOf(value) != listType {
        return Some(ArgumentMismatch);
      }
      if !(0 <= index < |tags|) {
        return Some(ArgumentOutOfRange);
      }
      tags := tags[index := value];
      return None;
    }

    /** `Insert`: the same kind rule as the setter (an Unknown kind is fixed
        before the index is checked); the item goes in at `index`, which may
        be anywhere from 0 to the count. */
    method Insert(index: int, item: Tag) returns (err: Option<NbtError>)
      requires Valid() && WellFormed(item) && |tags| < MaxInt32
      modifies this`listType, this`tags
      ensures Valid()
      ensures listType == if old(listType) == Unknown then KindOf(item) else old(listType)
      ensures old(listType) != Unknown && KindOf(item) != old(listType) ==>
        err == Some(ArgumentMismatch) && tags == old(tags)
      ensures old(listType) == Unknown || KindOf(item) == old(listType) ==>
        if 0 <= index <= |old(tags)|
        then err.None? && tags == old(tags)[..index] + [item] + old(tags)[index..]
        else err == Some(ArgumentOutOfRange) && tags == old(tags)
    {
      if listType == Unknown {
        listType := KindOf(item);
      } else if KindOf(item) != listType {
        return Some(ArgumentMismatch);
      }
      if !(0 <= index <= |tags|) {
        return Some(ArgumentOutOfRange);
      }
      tags := tags[..index] + [item] + tags[index..];
      return None;
    }

    /** `RemoveAt`: only the elements change; the kind stays, even when the
        list becomes empty. */
    method RemoveAt(index: int) returns (err: Option<NbtError>)
      requires Valid()
      modifies this`tags
      ensures Valid() && listType == old(listType)
      ensures 0 <= index < |old(tags)| ==> err.None? && tags == old(tags)[..index] + old(tags)[index + 1..]
      ensures !(0 <= index < |old(tags)|) ==> err == Some(ArgumentOutOfRange) && tags == old(tags)
    {
      if !(0 <= index < |tags|) {
        return Some(ArgumentOutOfRange);
      }
      tags := tags[..index] + tags[index + 1..];
      return None;
    }

    /** `Add`: an item of another kind than a fixed kind is refused and
        nothing changes; otherwise the kind is fixed (if it was Unknown) and
        the item becomes the last element, the earlier ones untouched. */
    method Add(item: Tag) returns (err: Option<NbtError>)
      requires Valid() && WellFormed(item) && |tags| < MaxInt32
      modifies this`listType, this`tags
      ensures Valid()
      ensures old(listType) != Unknown && KindOf(item) != old(listType) ==>
        err == Some(ArgumentMismatch) && tags == old(tags) && listType == old(listType)
      ensures old(listType) == Unknown || KindOf(item) == old(listType) ==>
        err.None? && tags == old(tags) + [item] && listType == KindOf(item)
    {
      if listType == Unknown {
        listType := KindOf(item);
      } else if KindOf(item) != listType {
        return Some(ArgumentMismatch);
      }
      tags := tags + [item];
      return None;
    }

    /** `Clear`: all elements go; the kind stays. */
    method Clear()
      requires Valid()
      modifies this`tags
      ensures Valid() && tags == [] && listType == old(listType)
    {
      tags := [];
    }

    /** `AddRange`: a null collection is an `ArgumentNullException`;
        otherwise `Add` for each new tag in order, stopping at the first one
        that is refused, with the tags before it left added. */
    method AddRange(given: Option<seq<Tag>>) returns (err: Option<NbtError>)
      requires Valid()
      requires given.Some? ==> |tags| + |given.value| <= MaxInt32
      requires given.Some? ==> forall i :: 0 <= i < |given.value| ==> WellFormed(given.value[i])
      modifies this`listType, this`tags
      ensures Valid()
      ensures given.None? ==>
        err == Some(ArgumentNull) && tags == old(tags) && listType == old(listType)
      ensures given.Some? ==>
        var newTags := given.value;
        var e := EffectiveType(old(listType), newTags);
        var j := FirstMismatch(newTags, e);
        listType == e && tags == old(tags) + newTags[..j] &&
        (err.None? <==> j == |newTags|) &&
        (err.Some? ==> err == Some(ArgumentMismatch))
    {
      if given.None? {
        return Some(ArgumentNull);
      }
      var newTags := given.value;
      ghost var e := EffectiveType(listType, newTags);
      var i := 0;
      while i < |newTags|
        invariant 0 <= i <= |newTags|
        invariant Valid()
        invariant forall j :: 0 <= j < i ==> KindOf(newTags[j]) == e
        invariant tags == old(tags) + newTags[..i]
        invariant listType == if i == 0 then old(listType) else e
      {
        var r := Add(newTags[i]);
        if r.Some? {
          FirstMismatchIs(newTags, e, i);
          return r;
        }
        assert newTags[..i + 1] == newTags[..i] + [newTags[i]];
        i := i + 1;
      }
      assert newTags[..i] == newTags;
      FirstMismatchIs(newTags, e, i);
      return None;
    }

    /** `ReadTag`: the name (when `readName` is set), then the element kind
        through the `ListType` setter, then the count and the elements,
        exactly as `ReadNameSpec` and `ReadListSpec` describe. */
    method ReadTag(reader: NbtReader, readName: bool) returns (err: Option<NbtError>)
      requires Valid() && reader.Valid()
      modifies this, reader
      ensures Valid() && reader.Valid()
      ensures var ns := ReadNameSpec(old(name), reader.tokens, old(reader.pos), readName);
        name == ns.name &&
        (ns.err.Some? ==>
          err == ns.err && listType == old(listType) && tags == old(tags) && reader.pos == old(reader.pos)) &&
        (ns.err.None? ==>
          var r := ReadListSpec(old(listType), old(tags), reader.tokens, ns.next);
          err == r.err && listType == r.listType && tags == r.items && reader.pos == r.next)
      decreases |reader.tokens| - reader.pos, 1
    {
      if readName {
        var s := reader.ReadString();
        if s.Err? {
          return Some(s.error);
        }
        name := Some(s.value);
      }
      err := ReadListBody(reader);
    }

    /** `ReadTag` after the name: the kind through the `ListType` setter,
        the count, then the elements. */
    method ReadListBody(reader: NbtReader) returns (err: Option<NbtError>)
      requires Valid() && reader.Valid()
      modifies this`listType, this`tags, reader
      ensures Valid() && reader.Valid()
      ensures var r := ReadListSpec(old(listType), old(tags), reader.tokens, old(reader.pos));
        err == r.err && listType == r.listType && tags == r.items && reader.pos == r.next
      decreases |reader.tokens| - reader.pos, 0
    {
      var code := reader.ReadTagType();
      if code.Err? {
        return Some(code.error);
      }
      var e := SetListType(code.value);
      if e.Some? {
        return e;
      }
      if listType == Unknown {
        return Some(FormatError(UnrecognizedListType));
      }
      var length := reader.ReadInt32();
      if length.Err? {
        return Some(length.error);
      }
      if length.value < 0 {
        return Some(FormatError(NegativeCount));
      }
      var items;
      items, err := ReadElementsInto(reader, listType, length.value);
      tags := items;
    }

    /** `WriteTag`: the List kind, then the name if `writeName` is set (a
        null name is a format error, raised after the kind is written),
        then `WriteData`. */
    method WriteTag(writer: NbtWriter, writeName: bool) returns (err: Option<NbtError>)
      requires Valid()
      modifies writer
      ensures var w := EncodeTag(AsTag(), writeName);
        writer.output == old(writer.output) + w.tokens && err == w.err
    {
      writer.WriteTagType(List);
      if writeName {
        if name.None? {
          return Some(FormatError(NullName));
        }
        writer.WriteString(name.value);
      }
      err := WriteData(writer);
    }

    /** `WriteData`: refuses an Unknown kind; otherwise the kind, the
        count, and each element's payload in stored order. */
    method WriteData(writer: NbtWriter) returns (err: Option<NbtError>)
      requires Valid()
      modifies writer
      ensures writer.output == old(writer.output) + EncodePayload(AsTag()).tokens
      ensures err == EncodePayload(AsTag()).err
    {
      err := WriteListData(writer, listType, tags);
    }

    /** `Query<T>(TagQuery, bool)`, with `expected` the kind of the
        requested class T (None for NbtTag). */
    method Query(query: TagQuery, bypassCheck: bool, expected: Option<TagType>) returns (r: QueryResult)
      requires query.Valid()
      modifies query
      ensures query.Valid()
      ensures QueryStep(r, query.index) == QuerySpec(AsTag(), query.tokens, old(query.index), bypassCheck, expected)
    {
      r := QueryList(AsTag(), query, bypassCheck, expected);
    }
  }

  /** A client of the list: writing a list's data and reading it back into
      a new list with the same name yields the same kind and elements. */
  method WriteDataThenRead(source: NbtList) returns (copy: NbtList)
    requires source.Valid() && Canonical(source.AsTag())
    ensures copy.AsTag() == source.AsTag()
  {
    var w := new NbtWriter();
    var err := source.WriteData(w);
    var r := new NbtReader(w.output);
    copy := new NbtList.Empty(source.name);
    assert w.output[0..|w.output|] == w.output;
    RoundTripList(Unknown, [], source.listType, source.tags, w.output, 0);
    err := copy.ReadTag(r, false);
  }
}
