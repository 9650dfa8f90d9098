/** Tags as values. A tag carries an optional name (null in C#) and a
    payload; `IntTag` and `ListTag` are the two classes this model covers,
    `OpaqueTag` stands for any other kind, whose payload is not modelled. */
module NbtTag {
  import opened NbtTypes

  type Name = Option<string>

  datatype Tag =
    | IntTag(name: Name, value: Int32)
    | ListTag(name: Name, listType: TagType, items: seq<Tag>)
    | OpaqueTag(name: Name, kind: OpaqueKind, data: seq<int>)

  /** The `TagType` property of each tag class. No tag is of kind `End`
      or `Unknown`. */
  function KindOf(t: Tag): (k: TagType)
    ensures k != Unknown && k != End
    ensures t.IntTag? <==> k == Int
    ensures t.ListTag? <==> k == List
  {
    match t
    case IntTag(_, _) => Int
    case ListTag(_, _, _) => List
    case OpaqueTag(_, k, _) => k
  }

  /** Every tag in `s` is of kind `k` (the `foreach` checks of NbtList). */
  predicate AllOfKind(s: seq<Tag>, k: TagType)
  {
    forall i :: 0 <= i < |s| ==> KindOf(s[i]) == k
  }

  /** The invariant every NbtList object keeps, applied to list values at
      every depth: at most Int32.MaxValue elements (a .NET list cannot hold
      more), each of the list's element kind. An empty list may have any
      element kind; a non-empty one never has kind Unknown. */
  predicate WellFormed(t: Tag)
  {
    match t
    case IntTag(_, _) => true
    case OpaqueTag(_, _, _) => true
    case ListTag(_, lt, items) =>
      |items| <= MaxInt32 &&
      forall i :: 0 <= i < |items| ==> KindOf(items[i]) == lt && WellFormed(items[i])
  }

  /** What the list invariant promises about a list value: its elements
      all have its element kind, so a non-empty list never has kind
      Unknown; and an empty list of any kind satisfies it. */
  lemma ListInvariant(t: Tag)
    requires t.ListTag?
    ensures WellFormed(t) ==>
      |t.items| <= MaxInt32 && AllOfKind(t.items, t.listType) && (t.items != [] ==> t.listType != Unknown)
    ensures t.items == [] ==> WellFormed(t)
  {
    if WellFormed(t) && t.items != [] {
      assert KindOf(t.items[0]) == t.listType;
    }
  }

  /** A tag that the writer accepts and the reader restores exactly: well
      formed, every list at every depth of a known kind, and every list
      element unnamed (names of list elements are never written). */
  predicate Canonical(t: Tag)
    ensures Canonical(t) ==> WellFormed(t)
  {
    match t
    case IntTag(_, _) => true
    case OpaqueTag(_, _, _) => true
    case ListTag(_, lt, items) =>
      lt != Unknown && |items| <= MaxInt32 &&
      forall i :: 0 <= i < |items| ==>
        KindOf(items[i]) == lt && items[i].name.None? && Canonical(items[i])
  }

  /** The same tag with its name cleared, as a payload-only read yields it. */
  function Unnamed(t: Tag): (u: Tag)
    ensures u.name.None? && KindOf(u) == KindOf(t)
    ensures Canonical(t) ==> Canonical(u)
  {
    match t
    case IntTag(_, v) => IntTag(None, v)
    case ListTag(_, lt, items) => ListTag(None, lt, items)
    case OpaqueTag(_, k, d) => OpaqueTag(None, k, d)
  }

  /** The index of the first tag in `s` that is not of kind `k`, or `|s|`. */
  function FirstMismatch(s: seq<Tag>, k: TagType): (j: nat)
    ensures j <= |s|
    ensures AllOfKind(s[..j], k)
    ensures j < |s| ==> KindOf(s[j]) != k
  {
    if s == [] then 0
    else if KindOf(s[0]) != k then 0
    else
      var j := 1 + FirstMismatch(s[1..], k);
      assert s[..j] == [s[0]] + s[1..][..j - 1];
      j
  }

  /** `FirstMismatch` is the one index before which every tag is of kind
      `k` and at which a tag (if any) is not. */
  lemma {:induction false} FirstMismatchIs(s: seq<Tag>, k: TagType, i: nat)
    requires i <= |s|
    requires forall j :: 0 <= j < i ==> KindOf(s[j]) == k
    requires i < |s| ==> KindOf(s[i]) != k
    ensures FirstMismatch(s, k) == i
  {
    if i > 0 {
      assert KindOf(s[0]) == k;
      forall j | 0 <= j < i - 1
        ensures KindOf(s[1..][j]) == k
      {
        assert s[1..][j] == s[j + 1];
      }
      FirstMismatchIs(s[1..], k, i - 1);
    }
  }
}
