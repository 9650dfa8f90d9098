# LibNbt list and int tags in Dafny

This project models the tag layer of LibNbt, a codec for NBT (Named Binary
Tag) documents. It covers two tag classes:

- `NbtList` is a named, homogeneous list of unnamed tags. Its element kind
  (`ListType`) starts as `Unknown`. The first element added fixes it. Every
  add, insert, indexer set and kind change checks it.
- `NbtInt` is a named signed 32-bit value.

The model covers construction, mutation, the binary layout (`ReadTag`,
`WriteTag`, `WriteData`) and path queries (`Query<T>`).

Layout of the model:

- `nbt_types.dfy` (`NbtTypes`): the `NbtTagType` enumeration with its wire
  identifiers, `Enum.IsDefined`, 32-bit integers, and the exceptions as an
  error datatype.
- `nbt_tag.dfy` (`NbtTag`): tags as values (`IntTag`, `ListTag`, and
  `OpaqueTag` for the tag classes outside this model). It also defines the
  list invariant `WellFormed` and the writable-and-restorable form
  `Canonical`.
- `nbt_stream.dfy` (`NbtStream`): `NbtReader` and `NbtWriter` as token
  streams. One token stands for what one `Read…`/`Write…` call consumes or
  emits.
- `nbt_codec.dfy` (`NbtCodec`): pure functions that give the exact effect of
  each read and write. This includes the partial state left behind by a
  failure. The module also holds the round-trip and rejection lemmas.
- `nbt_int.dfy` (`NbtIntTag`): the `NbtInt` class.
- `nbt_query.dfy` (`NbtQuery`):
  - `int.TryParse` and the `TagQuery` token cursor.
  - The query semantics as a function, with lemmas for each outcome.
  - The query walk as a method proved equal to that function.
- `nbt_list.dfy` (`NbtListTag`): the `NbtList` class and its element loops.
  Every method is proved against the codec functions or against its old
  state. Every method also preserves the list invariant `Valid()`.

Each exception is an error value (`NbtError`). A method that throws in the
source returns `Some(error)` or `Err(error)`, and its contract states the
state it leaves behind, which is exactly what the source leaves.

Behaviours of the source that the model keeps as they are:

- Kind fixed before the bounds check. On an `Unknown` list, the indexer
  setter and `Insert` adopt the item's kind before the index is checked. An
  out-of-range call can therefore still fix the kind.
- Sticky kind. `Clear` and `RemoveAt` never reset `ListType`. The
  `ListType` setter can set `Unknown` again on an empty list.
- Kind change on a non-empty list. The setter accepts any kind that every
  element already has, not only while the list is empty.
- End-kind lists. The per-element switch of `ReadTag` has no `End` case. A
  list of kind End reads no element and ends up empty, whatever its count
  (`EndListReadsNothing`).
- Dead check. `ReadTag` stores the kind read through the `ListType` setter,
  which already refuses an undefined kind with `ArgumentOutOfRangeException`.
  The `Enum.IsDefined` test that follows can never fire, so only `Unknown`
  reaches the format error.
- Old elements survive a failed read. `ReadTag` clears the old elements
  only after the count has been read. A read that fails earlier leaves them
  in place. If the old elements do not match the kind on the wire, the
  setter raises `ArgumentException`.
- Write order. `WriteTag` writes the kind before it checks for a null name,
  so a failed write leaves that token in the stream.
- Root-name mismatch. A query whose root name does not match returns null.
  It does not raise an error.
- Out-of-range index in a query. `Get<NbtTag>` raises
  `ArgumentOutOfRangeException`, not `NbtQueryException`.
- Token after an index. When a query continues past an index, the
  element's own `Query` consumes the next token as its bypassed name. On a
  list of lists, the path `a.0.1` therefore yields element 0 of `a`
  (`QuerySkipsTokenAfterIndex`).

## Model

| member | source | states |
|---|---|---|
| NbtTypes.FromCode | LibNbt/Tags/NbtList.cs:25-27 | `Enum.IsDefined` with the cast: it yields a kind exactly when that kind's numeric value is the given code, and none when no kind has that value |
| NbtTypes.FromCodeOfCode | LibNbt/Tags/NbtList.cs:25-27 | every kind maps back to itself, so distinct kinds have distinct identifiers |
| NbtTag.KindOf | LibNbt/Tags/NbtInt.cs:9-11 | no tag is of kind End or Unknown; a tag is of kind Int exactly when it is an NbtInt, and of kind List exactly when it is an NbtList |
| NbtTag.ListInvariant | LibNbt/Tags/NbtList.cs:19-35 | the list invariant `WellFormed` (which `NbtList.Valid` applies to the object) means every element has the list's kind, so a non-empty list never has kind Unknown, and the count fits an `int`; an empty list of any kind satisfies it |
| NbtTag.Canonical | LibNbt/Tags/NbtList.cs:269-278 | a list that is written and restored exactly at every depth (known kind, unnamed elements, since element names are never written) satisfies the list invariant |
| NbtTag.Unnamed | LibNbt/Tags/NbtList.cs:198-254 | a payload-only read yields an unnamed tag of the same kind; canonical tags stay canonical |
| NbtTag.FirstMismatch | LibNbt/Tags/NbtList.cs:163-168 | the point where `AddRange` stops: every earlier new tag is of the kind, and the tag there is not |
| NbtTag.FirstMismatchIs | LibNbt/Tags/NbtList.cs:163-168 | that stopping point is unique: any index with the same two properties is it |
| NbtCodec.ReadNameSpec | LibNbt/Tags/NbtList.cs:181-183 | without `readName` nothing is read and the name stays; with it, one string is read and becomes the name, and the read fails exactly when no string is there, leaving the old name and the position |
| NbtCodec.ReadPayload | LibNbt/Tags/NbtList.cs:198-254 | one element read: it stays within the stream and, on failure too, stops where the reader stands (inside a nested list that failed, after what that list consumed); on success it yields a tag exactly when the kind is neither End nor Unknown; the tag has the list's kind, no name, and is well formed |
| NbtCodec.ReadElements | LibNbt/Tags/NbtList.cs:196-255 | the element loop yields no more than `count` elements (exactly `count` on success, by `ReadElementsCount`), each of the list's kind, unnamed and well formed; its end position is where the reader stands, also after a failed element |
| NbtCodec.ReadElementsCount | LibNbt/Tags/NbtList.cs:196-255 | a successful element loop of any kind other than End yields exactly `count` elements |
| NbtCodec.ReadListSpec | LibNbt/Tags/NbtList.cs:185-256 | a successful read consumes the kind and count and never ends with kind Unknown; on every path the end position is where the reader stands; the list invariant holds afterwards whether or not the read fails; read elements are unnamed |
| NbtCodec.ReadListCount | LibNbt/Tags/NbtList.cs:191-255 | a successful read took its kind from the kind token on the wire, and, for any kind other than End, found a non-negative count after it and holds exactly that many elements |
| NbtCodec.NestedFailurePosition | LibNbt/Tags/NbtList.cs:185-242 | a list of one Int list whose only value is missing fails with a stream error after both kinds and both counts are consumed, with no elements and kind List |
| NbtCodec.EncodePayload | LibNbt/Tags/NbtList.cs:269-278 | a payload write can fail only on an Unknown list kind, and never fails for a canonical tag |
| NbtCodec.EncodeList | LibNbt/Tags/NbtList.cs:269-278 | `WriteData` fails, writing nothing, exactly when the kind is Unknown; it never fails for a canonical list |
| NbtCodec.EncodeElements | LibNbt/Tags/NbtList.cs:275-277 | the element loop fails only on an Unknown nested list kind, never when every element is canonical |
| NbtCodec.EncodeTag | LibNbt/Tags/NbtList.cs:259-266 | `WriteTag` emits the kind first; it fails with the kind alone in the output exactly when a name is required and missing; otherwise it emits the name when required, then exactly `WriteData`'s output |
| NbtCodec.EncodeElementsSnoc | LibNbt/Tags/NbtList.cs:275-277 | one more element extends the element loop's output by that element's payload |
| NbtCodec.EncodeElementsStops | LibNbt/Tags/NbtList.cs:275-277 | after a failing element nothing more is written |
| NbtCodec.RoundTripPayload | LibNbt/Tags/NbtList.cs:198-254 | reading back a written canonical payload restores the tag without its name and consumes exactly what was written |
| NbtCodec.RoundTripElements | LibNbt/Tags/NbtList.cs:196-255 | reading back the written elements restores them in stored order and consumes exactly what was written |
| NbtCodec.RoundTripList | LibNbt/Tags/NbtList.cs:186-196 | reading back a written canonical list, into any list whose old elements the setter accepts, restores kind and elements and consumes exactly what was written |
| NbtCodec.EndListReadsNothing | LibNbt/Tags/NbtList.cs:197-254 | with kind End the element loop reads nothing and yields no elements, whatever the count |
| NbtCodec.EndListIsEmpty | LibNbt/Tags/NbtList.cs:186-255 | a list read with kind End and a non-negative count succeeds, empty, after the kind and count |
| NbtCodec.ReadRejectsUnknown | LibNbt/Tags/NbtList.cs:186-189 | kind Unknown on the wire is a format error, raised after the setter stored it |
| NbtCodec.ReadRejectsNegativeCount | LibNbt/Tags/NbtList.cs:191-194 | a negative count is a format error; kind set, elements unchanged |
| NbtCodec.ReadRejectsUndefinedKind | LibNbt/Tags/NbtList.cs:186 | an undefined kind code is refused by the setter; kind and elements unchanged |
| NbtCodec.NamedRoundTrip | LibNbt/Tags/NbtList.cs:179-183 | a named tag written with its name reads back as the same name followed by the same payload |
| NbtIntTag.NbtInt.Kind | LibNbt/Tags/NbtInt.cs:9-11 | an NbtInt is of kind Int, identifier 3 |
| NbtIntTag.NbtInt.constructor | LibNbt/Tags/NbtInt.cs:18 | unnamed, value 0 |
| NbtIntTag.NbtInt.WithValue | LibNbt/Tags/NbtInt.cs:23-24 | unnamed, the given value |
| NbtIntTag.NbtInt.WithName | LibNbt/Tags/NbtInt.cs:29-30 | the given name, value 0 |
| NbtIntTag.NbtInt.WithNameAndValue | LibNbt/Tags/NbtInt.cs:36-39 | the given name and value |
| NbtIntTag.NbtInt.ReadTag | LibNbt/Tags/NbtInt.cs:42-47 | the name is read first only when asked; then the value; a failed name read changes nothing, a failed value read keeps the new name |
| NbtIntTag.NbtInt.WriteTag | LibNbt/Tags/NbtInt.cs:50-57 | output grows by exactly `EncodeTag` of the tag, failure included |
| NbtIntTag.NbtInt.WriteData | LibNbt/Tags/NbtInt.cs:60-62 | output grows by exactly the payload, and never fails |
| NbtIntTag.WriteTagLayout | LibNbt/Tags/NbtInt.cs:50-62 | fails exactly when a name is required and missing; otherwise kind 3, the name when required, then the value alone |
| NbtIntTag.IntRoundTrip | LibNbt/Tags/NbtInt.cs:42-62 | the written value is read back as the same value, unnamed, consuming one token |
| NbtIntTag.WriteDataThenRead | LibNbt/Tags/NbtInt.cs:42-62 | `WriteData` then `ReadTag(_, false)` restores the value and leaves the target's name alone |
| NbtQuery.ParseInt32 | LibNbt/Tags/NbtList.cs:310-315 | `int.TryParse` accepts only values in the 32-bit range |
| NbtQuery.DigitsValueOfDecimal | LibNbt/Tags/NbtList.cs:311 | decimal digits are read back as the number they spell |
| NbtQuery.ParseDecimal | LibNbt/Tags/NbtList.cs:311 | every index up to Int32.MaxValue written in decimal parses as that index |
| NbtQuery.TrailingNuls | LibNbt/Tags/NbtList.cs:311 | `int.TryParse` skips white space and a sign before the digits, and white space followed by NUL characters after them: " -7 \0\0" is -7 |
| NbtQuery.NulBeforeWhite | LibNbt/Tags/NbtList.cs:311 | a NUL character followed by white space after the digits is rejected |
| NbtQuery.TagQuery.Peek | LibNbt/Tags/NbtList.cs:306 | the next token, without consuming it; null exactly at the end |
| NbtQuery.TagQuery.TokensLeft | LibNbt/Tags/NbtList.cs:319 | consumed plus remaining tokens is the path length |
| NbtQuery.TagQuery.Next | LibNbt/Tags/NbtList.cs:298 | returns what `Peek` showed and consumes it; at the end it consumes nothing |
| NbtQuery.Cast | LibNbt/Tags/NbtList.cs:328-331 | `(T)tag` succeeds, with the same tag, exactly when T is NbtTag or the tag's class; otherwise an invalid cast |
| NbtQuery.QuerySpec | LibNbt/Tags/NbtList.cs:297-332 | a query only moves forward in the path |
| NbtQuery.QueryStaysWithin | LibNbt/Tags/NbtList.cs:297-332 | a query returns the list itself or a tag inside it |
| NbtQuery.QueryNameMismatch | LibNbt/Tags/NbtList.cs:300-304 | without bypass, a first token other than the name (or a null name) yields null |
| NbtQuery.QueryNoNextToken | LibNbt/Tags/NbtList.cs:306-331 | with no token after the name, the result is the list itself |
| NbtQuery.QueryNotAnIndex | LibNbt/Tags/NbtList.cs:310-315 | a following token that is not an integer is a query error |
| NbtQuery.QueryOneIndex | LibNbt/Tags/NbtList.cs:317-328 | with exactly one token after the name that `int.TryParse` reads as an element index (so also ` 1`, `+1` or `01`), the result is that element, cast |
| NbtQuery.QueryDescends | LibNbt/Tags/NbtList.cs:317-326 | with more tokens after a token that `int.TryParse` reads as the index of a nested list, the query continues in that list with the name check bypassed |
| NbtQuery.QuerySkipsTokenAfterIndex | LibNbt/Tags/NbtList.cs:319-326 | on a list of lists, `a.0.1` yields element 0 of `a`: the token after an index is taken as the element's name |
| NbtQuery.QueryList | LibNbt/Tags/NbtList.cs:297-332 | the query walk returns what `QuerySpec` describes and leaves the cursor where it says |
| NbtListTag.CheckAllOfKind | LibNbt/Tags/NbtList.cs:28-32 | the `foreach` check succeeds exactly when every tag is of the kind |
| NbtListTag.WritePayload | LibNbt/Tags/NbtList.cs:275-277 | one element's `WriteData` emits exactly `EncodePayload`, failure included |
| NbtListTag.WriteListData | LibNbt/Tags/NbtList.cs:269-278 | the list payload write emits exactly `EncodeList`: nothing and a format error for kind Unknown, else kind, count and elements |
| NbtListTag.WriteElements | LibNbt/Tags/NbtList.cs:275-277 | the element loop emits exactly `EncodeElements`, stopping at the first failure |
| NbtListTag.ReadElementsInto | LibNbt/Tags/NbtList.cs:196-255 | the counted loop yields exactly the elements, error and end position `ReadElements` describes, on success and on failure |
| NbtListTag.ReadElement | LibNbt/Tags/NbtList.cs:198-254 | one pass of the per-element switch yields exactly the tag, error and end position `ReadPayload` describes, on success and on failure |
| NbtListTag.NbtList.Kind | LibNbt/Tags/NbtList.cs:11-13 | an NbtList is of kind List, identifier 9 |
| NbtListTag.NbtList.Empty | LibNbt/Tags/NbtList.cs:41-48 | the given name, no elements, kind Unknown |
| NbtListTag.NbtList.Create | LibNbt/Tags/NbtList.cs:115-137 | undefined kind refused; kind Unknown inferred from the first tag; success exactly when all tags share the resulting kind; a null collection is empty |
| NbtListTag.NbtList.CreateFromTags | LibNbt/Tags/NbtList.cs:57-96 | the same, including `ArgumentException` (a kind mismatch) for tags of mixed kinds, but a null collection is refused with `ArgumentNullException` after the delegated constructor's checks |
| NbtListTag.NbtList.SetListType | LibNbt/Tags/NbtList.cs:22-35 | undefined kind refused; otherwise accepted exactly when every element has it; elements unchanged |
| NbtListTag.NbtList.Get | LibNbt/Tags/NbtList.cs:141-142 | the element at an index in range, of the list's kind; out of range otherwise |
| NbtListTag.NbtList.GetAs | LibNbt/Tags/NbtList.cs:157-160 | out of range, or an invalid cast exactly when the requested class is not the element's; on a valid list a cast to a class succeeds exactly when it is the list's kind |
| NbtListTag.NbtList.Set | LibNbt/Tags/NbtList.cs:143-153 | Unknown adopts the value's kind before the index check; mismatch refused, nothing changes; otherwise exactly that element replaced or out of range |
| NbtListTag.NbtList.Insert | LibNbt/Tags/NbtList.cs:358-365 | Unknown adopts the item's kind before the index check; mismatch refused; otherwise the item goes in at the index and the rest shift |
| NbtListTag.NbtList.RemoveAt | LibNbt/Tags/NbtList.cs:368-370 | exactly that element removed, or out of range; the kind stays |
| NbtListTag.NbtList.Add | LibNbt/Tags/NbtList.cs:373-380 | mismatch refused with nothing changed; otherwise appended last, earlier elements untouched, kind fixed |
| NbtListTag.NbtList.Clear | LibNbt/Tags/NbtList.cs:383-385 | no elements; the kind stays |
| NbtListTag.EffectiveType | LibNbt/Tags/NbtList.cs:374-378 | the kind that adding tags in order checks against: the list's kind when it is known or nothing is added, otherwise the first new tag's kind; it is never Unknown once a tag is added, and the first new tag matches it exactly when `Add` accepts that tag |
| NbtListTag.NbtList.AddRange | LibNbt/Tags/NbtList.cs:163-168 | a null collection raises `ArgumentNullException` and changes nothing; otherwise the new tags up to the first that does not match are appended in order, and the call fails exactly when there is such a tag |
| NbtListTag.NbtList.ReadTag | LibNbt/Tags/NbtList.cs:179-256 | name, kind, elements, error and stream position exactly as `ReadNameSpec` and `ReadListSpec` say, on every path; a failed name read moves nothing; the list invariant holds afterwards |
| NbtListTag.NbtList.ReadListBody | LibNbt/Tags/NbtList.cs:185-255 | kind, elements, error and stream position after the name exactly as `ReadListSpec` says, on every path: the kind goes through the `ListType` setter (an undefined code or one that mismatches the old elements is refused there), Unknown and a negative count are format errors raised after the kind is stored, and the elements are replaced only once the count is read; the list invariant holds on every path |
| NbtListTag.NbtList.WriteTag | LibNbt/Tags/NbtList.cs:259-266 | output grows by exactly `EncodeTag` of the list, failure included |
| NbtListTag.NbtList.WriteData | LibNbt/Tags/NbtList.cs:269-278 | output grows by exactly `EncodePayload` of the list, failure included |
| NbtListTag.NbtList.Query | LibNbt/Tags/NbtList.cs:297-332 | the result and the cursor are exactly what `QuerySpec` gives for this list |
| NbtListTag.WriteDataThenRead | LibNbt/Tags/NbtList.cs:179-278 | writing a canonical list's data and reading it into a new list of the same name yields the same list |

## Left out

- `ToString` in both classes: string formatting only.
- `Query(string)` and `Query<T>(string)`: they only build a `TagQuery` from a string. Path tokenisation (`TagQuery`'s parser) is not part of this model; a query is given as its token sequence.
- `TagQuery` itself is not part of this model. Its cursor is taken to work as follows. `Peek()` returns the next token without consuming it. `Next()` returns that token and then advances. `TokensLeft()` counts the tokens not yet consumed, including the one `Peek()` would return. `QueryOneIndex`, `QueryDescends` and `QuerySkipsTokenAfterIndex` depend on this reading of the cursor.
- The `IEnumerable`, `IList` and `ICollection` adapters, `GetEnumerator`, `CopyTo`, `SyncRoot`, `IsSynchronized`, `IsReadOnly`, `IsFixedSize`, `Count` and `ToArray`: host-collection plumbing that forwards to the operations above or reads the element sequence directly.
- `IndexOf`, `Contains` and `Remove(item)`: they rely on `NbtTag` equality, which is not part of this model.
- Null arguments: elements are values, so a null item passed to `Add`, `Insert`, the indexer or inside the tag collection given to `AddRange` or to the constructors cannot be expressed. A null tag collection in the constructors and in `AddRange` is modelled. Names are optional strings, so a null name is modelled.
- Aliasing: a list holds value snapshots of its elements. Changing an NbtList object after adding it to another list is not reflected in the outer list.
- `NbtReader`/`NbtWriter` internals: byte order, string encoding, stream access and end of stream are not part of this model. A read that finds no token of the expected form fails with a stream error and consumes nothing.
- The tag classes other than NbtInt and NbtList (`NbtByte`, `NbtShort`, `NbtLong`, `NbtFloat`, `NbtDouble`, `NbtByteArray`, `NbtString`, `NbtCompound`, `NbtIntArray`) are not part of this model. Their payloads are single opaque tokens keyed by kind. The `Query` of tags other than NbtList is not modelled, so a query that continues into any element that is not a list (an NbtInt included) ends with the `Delegated` outcome.
- The numeric value of `NbtTagType.Unknown` is taken to be 0xFF. `NbtTagType.cs` is not part of this model; the other members are the NBT identifiers 0 to 11.
- `NbtQuery.ParseInt32`: culture-specific positive and negative signs of `int.TryParse` are not modelled; the invariant-culture signs `+` and `-` are.
- NbtListTag.NbtList.Add: requires room for one more element (at most Int32.MaxValue elements), because the list invariant bounds the count by the largest `int` the count field can carry.
- NbtListTag.NbtList.Insert: requires room for one more element, for the same reason.
- NbtListTag.NbtList.AddRange: requires room for all new tags, for the same reason.
- NbtListTag.NbtList.AddRange: the collection is a value snapshot, so `l.AddRange(l)` is not modelled as the source behaves. There, on a non-empty list, the first `Add` changes the `List<NbtTag>` that the `foreach` is enumerating, and the next step throws `InvalidOperationException` after one element has been appended. The model appends every element and reports no error. Aliasing between a list and the collection it is given is not captured.
