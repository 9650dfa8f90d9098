/** Path queries on list tags: a TagQuery is a sequence of path tokens
    consumed front to back; a list descends into one of its elements by
    an integer token. */
module NbtQuery {
  import opened NbtTypes
  import opened NbtTag

  // ------------------------------------------------------- int.TryParse

  /** The white space `int.TryParse` skips around a number. */
  predicate IsWhite(c: char)
  {
    c == ' ' || '\t' <= c <= '\r'
  }

  predicate IsDigit(c: char)
  {
    '0' <= c <= '9'
  }

  /** `s` without its leading white space. */
  function TrimStart(s: string): string
  {
    if s != [] && IsWhite(s[0]) then TrimStart(s[1..]) else s
  }

  /** `s` without its trailing white space. */
  function TrimEnd(s: string): string
  {
    if s != [] && IsWhite(s[|s| - 1]) then TrimEnd(s[..|s| - 1]) else s
  }

  /** `s` without its trailing NUL characters, which `int.TryParse` accepts
      after the number and its trailing white space. */
  function TrimNuls(s: string): string
  {
    if s != [] && s[|s| - 1] == '\0' then TrimNuls(s[..|s| - 1]) else s
  }

  predicate AllDigits(s: string)
  {
    forall i :: 0 <= i < |s| ==> IsDigit(s[i])
  }

  function DigitValue(c: char): nat
    requires IsDigit(c)
  {
    c as int - '0' as int
  }

  /** The value of a string of decimal digits. */
  function DigitsValue(s: string): nat
    requires forall i :: 0 <= i < |s| ==> IsDigit(s[i])
  {
    if s == [] then 0
    else DigitsValue(s[..|s| - 1]) * 10 + DigitValue(s[|s| - 1])
  }

  /** `int.TryParse` with the default number style: optional white space,
      an optional sign, one or more decimal digits, optional white space,
      optional NUL characters, and a value that fits in 32 bits. */
  function ParseInt32(s: string): (r: Option<int>)
    ensures r.Some? ==> MinInt32 <= r.value <= MaxInt32
  {
    var t := TrimEnd(TrimNuls(TrimStart(s)));
    var negative := t != [] && t[0] == '-';
    var digits := if t != [] && (t[0] == '-' || t[0] == '+') then t[1..] else t;
    if digits == [] || !AllDigits(digits) then None
    else
      var m: int := DigitsValue(digits);
      var v := if negative then -m else m;
      if MinInt32 <= v <= MaxInt32 then Some(v) else None
  }

  /** The decimal spelling of a natural number, without sign or padding. */
  function DecimalString(n: nat): (s: string)
    ensures s != [] && forall i :: 0 <= i < |s| ==> IsDigit(s[i])
  {
    var d := ['0' + (n % 10) as char];
    if n < 10 then d else DecimalString(n / 10) + d
  }

  lemma {:induction false} DigitsValueOfDecimal(n: nat)
    ensures DigitsValue(DecimalString(n)) == n
  {
    var s := DecimalString(n);
    if n >= 10 {
      DigitsValueOfDecimal(n / 10);
      assert s[..|s| - 1] == DecimalString(n / 10);
    }
  }

  /** Every non-negative index up to Int32.MaxValue, written in decimal,
      is accepted as that index. */
  lemma ParseDecimal(n: nat)
    requires n <= MaxInt32
    ensures ParseInt32(DecimalString(n)) == Some(n)
  {
    var s := DecimalString(n);
    assert !IsWhite(s[0]) && !IsWhite(s[|s| - 1]);
    assert TrimStart(s) == s;
    assert TrimNuls(s) == s;
    assert TrimEnd(s) == s;
    DigitsValueOfDecimal(n);
  }

  /** Trailing white space and then trailing NUL characters are skipped. */
  lemma TrailingNuls()
    ensures ParseInt32(" -7 \0\0") == Some(-7)
  {
    assert TrimStart(" -7 \0\0") == "-7 \0\0";
    assert "-7 \0\0"[..4] == "-7 \0";
    assert "-7 \0"[..3] == "-7 ";
    assert TrimNuls("-7 \0\0") == "-7 ";
    assert "-7 "[..2] == "-7";
    assert TrimEnd("-7 ") == "-7";
    assert "-7"[1..] == "7";
    assert DigitsValue("7") == 7;
  }

  /** A NUL character followed by white space is not skipped. */
  lemma NulBeforeWhite()
    ensures ParseInt32("1\0 ") == None
  {
  }

  // ----------------------------------------------------------- TagQuery

  /** A parsed path: its tokens and how many of them have been consumed. */
  class TagQuery {
    const tokens: seq<string>
    var index: nat

    ghost predicate Valid()
      reads this
    {
      index <= |tokens|
    }

    constructor (path: seq<string>)
      ensures Valid() && tokens == path && index == 0
    {
      tokens := path;
      index := 0;
    }

    /** The next token without consuming it; None (null) at the end. */
    function Peek(): (r: Option<string>)
      reads this
      requires Valid()
      ensures r.Some? <==> index < |tokens|
      ensures r.Some? ==> r.value == tokens[index]
    {
      if index < |tokens| then Some(tokens[index]) else None
    }

    function TokensLeft(): (n: nat)
      reads this
      requires Valid()
      ensures index + n == |tokens|
    {
      |tokens| - index
    }

    /** The next token, consumed; None (null) at the end, consuming nothing. */
    method Next() returns (r: Option<string>)
      requires Valid()
      modifies this
      ensures Valid() && r == old(Peek())
      ensures index == if old(index) < |tokens| then old(index) + 1 else old(index)
    {
      if index < |tokens| {
        r := Some(tokens[index]);
        index := index + 1;
      } else {
        r := None;
      }
    }
  }

  // -------------------------------------------------------------- Query

  /** What `Query<T>` returns: null, a tag, a tag into which the query
      continues with that tag's own `Query` (not part of this model), or an
      exception. */
  datatype QueryResult =
    | Null
    | Found(tag: Tag)
    | Delegated(tag: Tag)
    | Failed(error: NbtError)

  datatype QueryStep = QueryStep(result: QueryResult, next: nat)

  /** The cast `(T)tag`, where `expected` is the kind of the requested class
      T, or None when T is NbtTag itself. */
  function Cast(t: Tag, expected: Option<TagType>): (r: QueryResult)
    ensures r.Found? || r == Failed(InvalidCast)
    ensures r.Found? <==> expected.None? || KindOf(t) == expected.value
    ensures r.Found? ==> r.tag == t
  {
    if expected.None? || KindOf(t) == expected.value then Found(t) else Failed(InvalidCast)
  }

  /** `NbtList.Query<T>(TagQuery, bool)` on the list `self`, with the query
      at token `index`: the result and the index the query is left at. */
  function QuerySpec(self: Tag, toks: seq<string>, index: nat, bypass: bool, expected: Option<TagType>): (r: QueryStep)
    requires self.ListTag? && index <= |toks|
    ensures index <= r.next <= |toks|
    decreases |toks| - index
  {
    var i1 := if index < |toks| then index + 1 else index;
    if !bypass && index < |toks| && Some(toks[index]) != self.name then QueryStep(Null, i1)
    else if i1 == |toks| then QueryStep(Cast(self, expected), i1)
    else match ParseInt32(toks[i1])
      case None => QueryStep(Failed(QueryError), i1)
      case Some(k) =>
        if !(0 <= k < |self.items|) then QueryStep(Failed(ArgumentOutOfRange), i1)
        else
          var elem := self.items[k];
          if |toks| - i1 > 1 then
            if elem.ListTag? then QuerySpec(elem, toks, i1 + 1, true, expected)
            else QueryStep(Delegated(elem), i1 + 1)
          else QueryStep(Cast(elem, expected), i1)
  }

  /** `t` is `s` or lies inside it. */
  predicate Within(t: Tag, s: Tag)
  {
    t == s || (s.ListTag? && exists i :: 0 <= i < |s.items| && Within(t, s.items[i]))
  }

  /** A query only ever returns, or hands on to, the list itself or a tag
      inside it. */
  lemma {:induction false} QueryStaysWithin(self: Tag, toks: seq<string>, index: nat, bypass: bool, expected: Option<TagType>)
    requires self.ListTag? && index <= |toks|
    ensures var r := QuerySpec(self, toks, index, bypass, expected).result;
      (r.Found? || r.Delegated?) ==> Within(r.tag, self)
    decreases |toks| - index
  {
    var i1 := if index < |toks| then index + 1 else index;
    if !bypass && index < |toks| && Some(toks[index]) != self.name {
    } else if i1 == |toks| {
    } else if ParseInt32(toks[i1]).Some? {
      var k := ParseInt32(toks[i1]).value;
      if 0 <= k < |self.items| {
        var elem := self.items[k];
        if |toks| - i1 > 1 && elem.ListTag? {
          QueryStaysWithin(elem, toks, i1 + 1, true, expected);
        }
        var r := QuerySpec(self, toks, index, bypass, expected).result;
        if r.Found? || r.Delegated? {
          assert Within(r.tag, elem);
        }
      }
    }
  }

  /** Without the bypass, a first token that differs from the list's name
      (a null name differs from every token) yields null and consumes
      only that token. */
  lemma QueryNameMismatch(self: Tag, toks: seq<string>, index: nat, expected: Option<TagType>)
    requires self.ListTag? && index < |toks| && self.name != Some(toks[index])
    ensures QuerySpec(self, toks, index, false, expected) == QueryStep(Null, index + 1)
  {
  }

  /** When no token follows the name, the result is the list itself. */
  lemma QueryNoNextToken(self: Tag, toks: seq<string>, index: nat, bypass: bool)
    requires self.ListTag? && index <= |toks| && |toks| - index <= 1
    requires !bypass && index < |toks| ==> self.name == Some(toks[index])
    ensures QuerySpec(self, toks, index, bypass, None).result == Found(self)
  {
  }

  /** A following token that is not an integer is a query error. */
  lemma QueryNotAnIndex(self: Tag, toks: seq<string>, index: nat, bypass: bool, expected: Option<TagType>)
    requires self.ListTag? && index + 1 < |toks| && ParseInt32(toks[index + 1]).None?
    requires !bypass ==> self.name == Some(toks[index])
    ensures QuerySpec(self, toks, index, bypass, expected) == QueryStep(Failed(QueryError), index + 1)
  {
  }

  /** With exactly one index token after the name, the result is that
      element, cast to the requested class; the index token stays unconsumed. */
  lemma QueryOneIndex(self: Tag, toks: seq<string>, index: nat, bypass: bool, expected: Option<TagType>, k: nat)
    requires self.ListTag? && index + 2 == |toks| && k < |self.items|
    requires ParseInt32(toks[index + 1]) == Some(k as int)
    requires !bypass ==> self.name == Some(toks[index])
    ensures QuerySpec(self, toks, index, bypass, expected) ==
      QueryStep(Cast(self.items[k], expected), index + 1)
  {
  }

  /** With more tokens after an index into a nested list, the query
      continues in that element with the name check bypassed, after
      consuming the index token. */
  lemma QueryDescends(self: Tag, toks: seq<string>, index: nat, bypass: bool, expected: Option<TagType>, k: nat)
    requires self.ListTag? && index + 2 < |toks| && k < |self.items|
    requires self.items[k].ListTag?
    requires ParseInt32(toks[index + 1]) == Some(k as int)
    requires !bypass ==> self.name == Some(toks[index])
    ensures QuerySpec(self, toks, index, bypass, expected) ==
      QuerySpec(self.items[k], toks, index + 2, true, expected)
  {
    var elem := self.items[k];
    assert !bypass ==> Some(toks[index]) == self.name;
    assert |toks| - (index + 1) > 1 && elem.ListTag?;
  }

  /** Because the element's own query starts by consuming a token as its
      (bypassed) name, the token after an index is skipped: on a list of
      lists, the path `a.0.1` yields element 0 of `a`, not element 1 of it. */
  lemma QuerySkipsTokenAfterIndex(inner: seq<Tag>, other: seq<Tag>, lt: TagType)
    requires |inner| >= 2
    ensures var a := ListTag(Some("a"), List, [ListTag(None, lt, inner)] + other);
      QuerySpec(a, ["a", "0", "1"], 0, false, None).result == Found(ListTag(None, lt, inner))
  {
    ParseDecimal(0);
    assert DecimalString(0) == "0";
  }

  /** Resolves the query on the list value `self`, consuming tokens from
      `query`, as `NbtList.Query<T>(TagQuery, bool)` does. */
  method QueryList(self: Tag, query: TagQuery, bypass: bool, expected: Option<TagType>) returns (r: QueryResult)
    requires self.ListTag? && query.Valid()
    modifies query
    ensures query.Valid()
    ensures QueryStep(r, query.index) == QuerySpec(self, query.tokens, old(query.index), bypass, expected)
    decreases |query.tokens| - query.index
  {
    ghost var toks, i0 := query.tokens, query.index;
    var token := query.Next();
    if !bypass {
      if token.Some? && Some(token.value) != self.name {
        return Null;
      }
    }
    var nextToken := query.Peek();
    if nextToken.Some? {
      var tagIndex := ParseInt32(nextToken.value);
      assert tagIndex == ParseInt32(toks[query.index]);
      if tagIndex.None? {
        return Failed(QueryError);
      }
      var k := tagIndex.value;
      if !(0 <= k < |self.items|) {
        return Failed(ArgumentOutOfRange);
      }
      var indexedTag := self.items[k];
      if query.TokensLeft() > 1 {
        var _ := query.Next();
        if indexedTag.ListTag? {
          r := QueryList(indexedTag, query, true, expected);
          return;
        }
        return Delegated(indexedTag);
      }
      return Cast(indexedTag, expected);
    }
    return Cast(self, expected);
  }
}
