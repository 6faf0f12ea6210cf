/**
 `stableJson` (`backend/src/ai/ai-chat-orchestrator.service.ts`): JSON text with object keys sorted, and
 why it is a canonical form.  Texts are sequences of UTF-16 code units, as in JavaScript; a number is
 represented by the text `JSON.stringify` gives it.
 */
module StableJson {
  type Unit = u: int | 0 <= u < 0x1_0000

  type Text = seq<Unit>

  const QUOTE: Unit := 34
  const BACKSLASH: Unit := 92
  const COMMA: Unit := 44
  const COLON: Unit := 58
  const OPEN_ARRAY: Unit := 91
  const CLOSE_ARRAY: Unit := 93
  const OPEN_OBJECT: Unit := 123
  const CLOSE_OBJECT: Unit := 125

  /** Digits, sign, point and exponent. */
  predicate NumberUnit(u: Unit) {
    48 <= u <= 57 || u == 45 || u == 43 || u == 46 || u == 101
  }

  predicate IsNumberText(t: Text) {
    t != [] && (t[0] == 45 || 48 <= t[0] <= 57) && forall i | 0 <= i < |t| :: NumberUnit(t[i])
  }

  type NumberText = t: Text | IsNumberText(t) witness [48]

  datatype Json =
    | Null
    | Bool(value: bool)
    | Num(text: NumberText)
    | Str(units: Text)
    | Arr(items: seq<Json>)
    | Obj(members: seq<Member>)

  /** An object's members in insertion order. */
  datatype Member = Member(key: Text, value: Json)

  /** Keys of an object are distinct, at every depth. */
  ghost predicate WellFormed(v: Json) {
    match v
    case Arr(items) => forall i | 0 <= i < |items| :: WellFormed(items[i])
    case Obj(members) => DistinctKeys(members) && forall i | 0 <= i < |members| :: WellFormed(members[i].value)
    case _ => true
  }

  ghost predicate DistinctKeys(members: seq<Member>) {
    forall i, j | 0 <= i < j < |members| :: members[i].key != members[j].key
  }

  /** Equal up to the order of object keys. */
  ghost predicate Equivalent(v: Json, w: Json)
    decreases v
  {
    match (v, w)
    case (Arr(xs), Arr(ys)) => |xs| == |ys| && forall i | 0 <= i < |xs| :: Equivalent(xs[i], ys[i])
    case (Obj(ms), Obj(ns)) =>
      |ms| == |ns| && forall i | 0 <= i < |ms| :: HasEquivalent(ms[i], ns)
    case _ => v == w
  }

  /** Some member has this key and an equivalent value. */
  ghost predicate HasEquivalent(m: Member, ns: seq<Member>)
    decreases m
  {
    exists j :: 0 <= j < |ns| && ns[j].key == m.key && Equivalent(m.value, ns[j].value)
  }

  // ----- Printing -----

  predicate IsHigh(u: Unit) { 0xD800 <= u <= 0xDBFF }

  predicate IsLow(u: Unit) { 0xDC00 <= u <= 0xDFFF }

  function HexDigit(d: int): Unit
    requires 0 <= d < 16
  {
    if d < 10 then 48 + d else 87 + d
  }

  function UnicodeEscape(u: Unit): Text {
    [BACKSLASH, 117, HexDigit(u / 4096), HexDigit(u / 256 % 16), HexDigit(u / 16 % 16), HexDigit(u % 16)]
  }

  /** One code unit on its own, as `JSON.stringify` quotes it: lone surrogates are escaped. */
  function EscapeUnit(u: Unit): Text {
    if u == QUOTE || u == BACKSLASH then [BACKSLASH, u]
    else if u == 8 then [BACKSLASH, 98]
    else if u == 12 then [BACKSLASH, 102]
    else if u == 10 then [BACKSLASH, 110]
    else if u == 13 then [BACKSLASH, 114]
    else if u == 9 then [BACKSLASH, 116]
    else if u < 32 || IsHigh(u) || IsLow(u) then UnicodeEscape(u)
    else [u]
  }

  predicate StartsWithPair(s: Text) {
    |s| >= 2 && IsHigh(s[0]) && IsLow(s[1])
  }

  function Escape(s: Text): Text {
    if s == [] then []
    else if StartsWithPair(s) then s[..2] + Escape(s[2..])
    else EscapeUnit(s[0]) + Escape(s[1..])
  }

  function Quote(s: Text): Text {
    [QUOTE] + Escape(s) + [QUOTE]
  }

  /** Order of `Array.prototype.sort` on strings: by code units. */
  predicate Less(a: Text, b: Text) {
    b != [] && (a == [] || a[0] < b[0] || (a[0] == b[0] && Less(a[1..], b[1..])))
  }

  /** A printed member. */
  datatype Entry = Entry(key: Text, text: Text)

  function Insert(e: Entry, es: seq<Entry>): seq<Entry> {
    if es == [] then [e]
    else if Less(e.key, es[0].key) then [e] + es
    else [es[0]] + Insert(e, es[1..])
  }

  function Sort(es: seq<Entry>): seq<Entry> {
    if es == [] then [] else Insert(es[0], Sort(es[1..]))
  }

  function EntryText(e: Entry): Text {
    Quote(e.key) + [COLON] + e.text
  }

  function JoinEntries(es: seq<Entry>): Text {
    if es == [] then []
    else if |es| == 1 then EntryText(es[0])
    else EntryText(es[0]) + [COMMA] + JoinEntries(es[1..])
  }

  function Join(texts: seq<Text>): Text {
    if texts == [] then []
    else if |texts| == 1 then texts[0]
    else texts[0] + [COMMA] + Join(texts[1..])
  }

  function Print(v: Json): Text
    decreases v
  {
    match v
    case Null => [110, 117, 108, 108]
    case Bool(b) => if b then [116, 114, 117, 101] else [102, 97, 108, 115, 101]
    case Num(text) => text
    case Str(units) => Quote(units)
    case Arr(items) => [OPEN_ARRAY] + Join(PrintItems(items)) + [CLOSE_ARRAY]
    case Obj(members) => [OPEN_OBJECT] + JoinEntries(Sort(Entries(members))) + [CLOSE_OBJECT]
  }

  function PrintItems(items: seq<Json>): (texts: seq<Text>)
    ensures |texts| == |items|
    ensures forall i | 0 <= i < |items| :: texts[i] == Print(items[i])
    decreases items
  {
    if items == [] then [] else [Print(items[0])] + PrintItems(items[1..])
  }

  function Entries(members: seq<Member>): (es: seq<Entry>)
    ensures |es| == |members|
    ensures forall i | 0 <= i < |members| :: es[i] == Entry(members[i].key, Print(members[i].value))
    decreases members
  {
    if members == [] then [] else [Entry(members[0].key, Print(members[0].value))] + Entries(members[1..])
  }

  // ----- Sorting -----

  lemma {:induction false} LessIsTotal(a: Text, b: Text)
    ensures Less(a, b) || a == b || Less(b, a)
    ensures !(Less(a, b) && Less(b, a)) && (a == b ==> !Less(a, b))
  {
    if a != [] && b != [] && a[0] == b[0] {
      LessIsTotal(a[1..], b[1..]);
      assert a == [a[0]] + a[1..] && b == [b[0]] + b[1..];
    }
  }

  lemma {:induction false} LessIsTransitive(a: Text, b: Text, c: Text)
    requires Less(a, b) && Less(b, c)
    ensures Less(a, c)
  {
    if a != [] && a[0] == b[0] == c[0] {
      LessIsTransitive(a[1..], b[1..], c[1..]);
    }
  }

  ghost predicate Ascending(es: seq<Entry>) {
    forall i, j | 0 <= i < j < |es| :: Less(es[i].key, es[j].key)
  }

  ghost predicate DistinctEntryKeys(es: seq<Entry>) {
    forall i, j | 0 <= i < j < |es| :: es[i].key != es[j].key
  }

  lemma {:induction false} InsertKeepsEntries(e: Entry, es: seq<Entry>)
    ensures multiset(Insert(e, es)) == multiset(es) + multiset{e}
  {
    if es != [] {
      assert es == [es[0]] + es[1..];
      if !Less(e.key, es[0].key) {
        InsertKeepsEntries(e, es[1..]);
      }
    }
  }

  lemma {:induction false} SortKeepsEntries(es: seq<Entry>)
    ensures multiset(Sort(es)) == multiset(es)
    ensures forall k | 0 <= k < |Sort(es)| :: Sort(es)[k] in es
  {
    if es != [] {
      SortKeepsEntries(es[1..]);
      InsertKeepsEntries(es[0], Sort(es[1..]));
      assert es == [es[0]] + es[1..];
    }
    forall k | 0 <= k < |Sort(es)|
      ensures Sort(es)[k] in es
    {
      assert Sort(es)[k] in multiset(Sort(es));
    }
  }

  lemma {:induction false} InsertKeepsSorted(e: Entry, es: seq<Entry>)
    requires Ascending(es) && forall i | 0 <= i < |es| :: es[i].key != e.key
    ensures Ascending(Insert(e, es))
  {
    if es != [] {
      LessIsTotal(e.key, es[0].key);
      if Less(e.key, es[0].key) {
        forall j | 1 <= j < |es|
          ensures Less(e.key, es[j].key)
        {
          LessIsTransitive(e.key, es[0].key, es[j].key);
        }
      } else {
        var rest := Insert(e, es[1..]);
        InsertKeepsSorted(e, es[1..]);
        forall j | 0 <= j < |rest|
          ensures Less(es[0].key, rest[j].key)
        {
          InsertKeepsEntries(e, es[1..]);
          assert rest[j] in multiset(rest);
          assert rest[j] == e || rest[j] in es[1..];
        }
      }
    }
  }

  lemma {:induction false} SortSorts(es: seq<Entry>)
    requires DistinctEntryKeys(es)
    ensures Ascending(Sort(es)) && multiset(Sort(es)) == multiset(es)
  {
    SortKeepsEntries(es);
    if es != [] {
      SortSorts(es[1..]);
      SortKeepsEntries(es[1..]);
      InsertKeepsSorted(es[0], Sort(es[1..]));
    }
  }

  lemma HeadsAgree(a: seq<Entry>, b: seq<Entry>)
    requires Ascending(a) && Ascending(b) && a != [] && b != [] && a[0] in b && b[0] in a
    ensures a[0] == b[0]
  {
    var j :| 0 <= j < |b| && b[j] == a[0];
    var i :| 0 <= i < |a| && a[i] == b[0];
    LessIsTotal(a[0].key, b[0].key);
  }

  lemma TailsAgree(a: seq<Entry>, b: seq<Entry>)
    requires a != [] && b != [] && a[0] == b[0] && multiset(a) == multiset(b)
    ensures multiset(a[1..]) == multiset(b[1..])
  {
    assert a == [a[0]] + a[1..] && b == [b[0]] + b[1..];
    assert multiset(a[1..]) == multiset(a) - multiset{a[0]};
  }

  /** There is one ascending arrangement of the same entries. */
  lemma {:induction false} AscendingIsUnique(a: seq<Entry>, b: seq<Entry>)
    requires Ascending(a) && Ascending(b) && multiset(a) == multiset(b)
    ensures a == b
  {
    assert |a| == |multiset(a)| == |multiset(b)| == |b|;
    if a != [] {
      assert a[0] in multiset(a) && b[0] in multiset(b);
      HeadsAgree(a, b);
      TailsAgree(a, b);
      AscendingIsUnique(a[1..], b[1..]);
    }
  }

  // ----- A printed text ends where it ends -----

  lemma HexDigitsDiffer(d: int, e: int)
    requires 0 <= d < 16 && 0 <= e < 16 && HexDigit(d) == HexDigit(e)
    ensures d == e
  {
  }

  lemma FourDigits(u: int)
    requires 0 <= u < 0x1_0000
    ensures u == 4096 * (u / 4096) + 256 * (u / 256 % 16) + 16 * (u / 16 % 16) + u % 16
  {
    assert u / 16 / 16 == u / 256 && u / 256 / 16 == u / 4096;
  }

  lemma UnicodeEscapeIsInjective(u: Unit, v: Unit, t: Text, w: Text)
    requires UnicodeEscape(u) + t == UnicodeEscape(v) + w
    ensures u == v && t == w
  {
    var a, b := UnicodeEscape(u) + t, UnicodeEscape(v) + w;
    assert a[2] == b[2] && a[3] == b[3] && a[4] == b[4] && a[5] == b[5];
    HexDigitsDiffer(u / 4096, v / 4096);
    HexDigitsDiffer(u / 256 % 16, v / 256 % 16);
    HexDigitsDiffer(u / 16 % 16, v / 16 % 16);
    HexDigitsDiffer(u % 16, v % 16);
    FourDigits(u);
    FourDigits(v);
    assert t == a[6..] && w == b[6..];
  }

  /** The length of an escape is told by its first two units. */
  lemma EscapeUnitIsInjective(u: Unit, v: Unit, t: Text, w: Text)
    requires EscapeUnit(u) + t == EscapeUnit(v) + w
    ensures u == v && t == w
  {
    var a, b := EscapeUnit(u) + t, EscapeUnit(v) + w;
    assert a[0] == b[0];
    if a[0] == BACKSLASH {
      assert a[1] == b[1];
      if a[1] == 117 {
        UnicodeEscapeIsInjective(u, v, t, w);
      } else {
        assert t == a[2..] && w == b[2..];
      }
    } else {
      assert t == a[1..] && w == b[1..];
    }
  }

  /** A lone unit never begins an escape the way a surrogate pair does, nor like a closing quote. */
  lemma EscapeUnitBegins(u: Unit)
    ensures EscapeUnit(u) != [] && !IsHigh(EscapeUnit(u)[0]) && EscapeUnit(u)[0] != QUOTE
  {
  }

  lemma EscapeBegins(s: Text, t: Text)
    requires s != []
    ensures (Escape(s) + t) != [] && (Escape(s) + t)[0] != QUOTE
    ensures IsHigh((Escape(s) + t)[0]) <==> StartsWithPair(s)
  {
    EscapeUnitBegins(s[0]);
  }

  /** What follows the first unit, or pair, of a nonempty text. */
  function Rest(s: Text): Text
    requires s != []
  {
    if StartsWithPair(s) then s[2..] else s[1..]
  }

  lemma Associate(a: Text, b: Text, c: Text)
    ensures (a + b) + c == a + (b + c)
  {
  }

  lemma CancelPrefix(a: Text, b: Text, t: Text, u: Text)
    requires |a| == |b| && a + t == b + u
    ensures a == b && t == u
  {
    assert a == (a + t)[..|a|] && b == (b + u)[..|b|];
    assert t == (a + t)[|a|..] && u == (b + u)[|b|..];
  }

  lemma PairIsInjective(s: Text, r: Text, t: Text, u: Text)
    requires StartsWithPair(s) && StartsWithPair(r) && Escape(s) + t == Escape(r) + u
    ensures s[..2] == r[..2] && Escape(s[2..]) + t == Escape(r[2..]) + u
  {
    Associate(s[..2], Escape(s[2..]), t);
    Associate(r[..2], Escape(r[2..]), u);
    CancelPrefix(s[..2], r[..2], Escape(s[2..]) + t, Escape(r[2..]) + u);
  }

  lemma SingleIsInjective(s: Text, r: Text, t: Text, u: Text)
    requires s != [] && r != [] && !StartsWithPair(s) && !StartsWithPair(r) && Escape(s) + t == Escape(r) + u
    ensures s[0] == r[0] && Escape(s[1..]) + t == Escape(r[1..]) + u
  {
    Associate(EscapeUnit(s[0]), Escape(s[1..]), t);
    Associate(EscapeUnit(r[0]), Escape(r[1..]), u);
    EscapeUnitIsInjective(s[0], r[0], Escape(s[1..]) + t, Escape(r[1..]) + u);
  }

  lemma {:induction false} QuoteIsPrefixFree(s: Text, r: Text, t: Text, u: Text)
    requires Escape(s) + ([QUOTE] + t) == Escape(r) + ([QUOTE] + u)
    ensures s == r && t == u
  {
    var t', u' := [QUOTE] + t, [QUOTE] + u;
    if s == [] || r == [] {
      EmptyQuote(s, r, t, u);
      assert t == t'[1..] && u == u'[1..];
    } else {
      EscapeBegins(s, t');
      EscapeBegins(r, u');
      if StartsWithPair(s) {
        PairIsInjective(s, r, t', u');
        QuoteIsPrefixFree(s[2..], r[2..], t, u);
        assert s == s[..2] + s[2..] && r == r[..2] + r[2..];
      } else {
        SingleIsInjective(s, r, t', u');
        QuoteIsPrefixFree(s[1..], r[1..], t, u);
        assert s == [s[0]] + s[1..] && r == [r[0]] + r[1..];
      }
    }
  }

  lemma EmptyQuote(s: Text, r: Text, t: Text, u: Text)
    requires Escape(s) + ([QUOTE] + t) == Escape(r) + ([QUOTE] + u) && (s == [] || r == [])
    ensures s == r == [] && [QUOTE] + t == [QUOTE] + u
  {
    var a, b := Escape(s) + ([QUOTE] + t), Escape(r) + ([QUOTE] + u);
    assert a[0] == b[0] == QUOTE;
    assert s == [] ==> a == [QUOTE] + t;
    assert r == [] ==> b == [QUOTE] + u;
    if s != [] {
      EscapeBegins(s, [QUOTE] + t);
    }
    if r != [] {
      EscapeBegins(r, [QUOTE] + u);
    }
  }

  /** What may follow a value: nothing, or a unit that is part of no number. */
  predicate Ends(t: Text) {
    t == [] || t[0] == COMMA || t[0] == CLOSE_ARRAY || t[0] == CLOSE_OBJECT
  }

  /** No longer number is a prefix of a number and what follows it. */
  lemma NumberEndsThere(a: Text, t: Text, b: Text)
    requires IsNumberText(a) && Ends(t) && IsNumberText(b) && |b| <= |a + t| && b == (a + t)[..|b|]
    ensures |b| <= |a|
  {
    assert forall i | 0 <= i < |b| :: (a + t)[i] == b[i];
    if t != [] {
      assert (a + t)[|a|] == t[0] && !NumberUnit(t[0]);
    }
  }

  lemma NumbersArePrefixFree(a: Text, b: Text, t: Text, u: Text)
    requires IsNumberText(a) && IsNumberText(b) && Ends(t) && Ends(u) && a + t == b + u
    ensures a == b && t == u
  {
    assert b == (b + u)[..|b|] && a == (a + t)[..|a|];
    NumberEndsThere(a, t, b);
    NumberEndsThere(b, u, a);
    assert a == (a + t)[..|a|] && b == (b + u)[..|b|];
    assert t == (a + t)[|a|..] && u == (b + u)[|b|..];
  }

  /** The first unit of a printed value tells which kind of value it is. */
  function Kind(v: Json): int {
    match v
    case Null => 0
    case Bool(b) => if b then 1 else 2
    case Num(_) => 3
    case Str(_) => 4
    case Arr(_) => 5
    case Obj(_) => 6
  }

  function KindOfUnit(u: Unit): int {
    if u == 110 then 0 else if u == 116 then 1 else if u == 102 then 2 else if u == QUOTE then 4
    else if u == OPEN_ARRAY then 5 else if u == OPEN_OBJECT then 6 else 3
  }

  lemma PrintBegins(v: Json)
    ensures Print(v) != [] && KindOfUnit(Print(v)[0]) == Kind(v)
    ensures Print(v)[0] != CLOSE_ARRAY && Print(v)[0] != CLOSE_OBJECT
  {
  }

  /** The texts after the first item. */
  function AfterFirst(texts: seq<Text>): Text
    requires texts != []
  {
    if |texts| == 1 then [] else [COMMA] + Join(texts[1..])
  }

  function AfterFirstEntry(es: seq<Entry>): Text
    requires es != []
  {
    if |es| == 1 then [] else [COMMA] + JoinEntries(es[1..])
  }

  lemma Regroup(a: Text, b: Text, c: Text, d: Text)
    ensures (a + b + c) + d == a + ((b + c) + d)
    ensures (b + c) + d == b + (c + d)
  {
  }

  lemma SplitJoin(texts: seq<Text>, t: Text)
    requires texts != []
    ensures Join(texts) + t == texts[0] + (AfterFirst(texts) + t)
    ensures |texts| == 1 ==> AfterFirst(texts) + t == t
    ensures |texts| > 1 ==> AfterFirst(texts) + t == [COMMA] + (Join(texts[1..]) + t)
  {
    if |texts| > 1 {
      Regroup(texts[0], [COMMA], Join(texts[1..]), t);
    } else {
      assert AfterFirst(texts) + t == t;
    }
  }

  lemma SplitEntries(es: seq<Entry>, t: Text)
    requires es != []
    ensures JoinEntries(es) + t == EntryText(es[0]) + (AfterFirstEntry(es) + t)
    ensures |es| == 1 ==> AfterFirstEntry(es) + t == t
    ensures |es| > 1 ==> AfterFirstEntry(es) + t == [COMMA] + (JoinEntries(es[1..]) + t)
  {
    if |es| > 1 {
      Regroup(EntryText(es[0]), [COMMA], JoinEntries(es[1..]), t);
    } else {
      assert AfterFirstEntry(es) + t == t;
    }
  }

  lemma QuotesArePrefixFree(s: Text, r: Text, t: Text, u: Text)
    requires Quote(s) + t == Quote(r) + u
    ensures s == r && t == u
  {
    assert Quote(s) + t == [QUOTE] + (Escape(s) + ([QUOTE] + t));
    assert Quote(r) + u == [QUOTE] + (Escape(r) + ([QUOTE] + u));
    CancelPrefix([QUOTE], [QUOTE], Escape(s) + ([QUOTE] + t), Escape(r) + ([QUOTE] + u));
    QuoteIsPrefixFree(s, r, t, u);
  }

  /** The key of an entry ends at its closing quote; its text follows the colon. */
  lemma EntrySplits(e: Entry, f: Entry, t: Text, u: Text)
    requires EntryText(e) + t == EntryText(f) + u
    ensures e.key == f.key && e.text + t == f.text + u
  {
    assert EntryText(e) + t == Quote(e.key) + ([COLON] + (e.text + t));
    assert EntryText(f) + u == Quote(f.key) + ([COLON] + (f.text + u));
    QuotesArePrefixFree(e.key, f.key, [COLON] + (e.text + t), [COLON] + (f.text + u));
    CancelPrefix([COLON], [COLON], e.text + t, f.text + u);
  }

  /** A text between brackets. */
  lemma BracketsArePrefixFree(open: Unit, close: Unit, a: Text, b: Text, t: Text, u: Text)
    requires [open] + a + [close] + t == [open] + b + [close] + u
    ensures a + ([close] + t) == b + ([close] + u)
  {
    assert [open] + a + [close] + t == [open] + (a + ([close] + t));
    assert [open] + b + [close] + u == [open] + (b + ([close] + u));
    CancelPrefix([open], [open], a + ([close] + t), b + ([close] + u));
  }

  lemma SameKind(v: Json, w: Json, t: Text, u: Text)
    requires Print(v) + t == Print(w) + u
    ensures Kind(v) == Kind(w)
  {
    PrintBegins(v);
    PrintBegins(w);
    var a, b := Print(v), Print(w);
    assert a[0] == (a + t)[0] == (b + u)[0] == b[0];
  }

  /** Two printed values followed by something that ends them are the same text. */
  lemma {:induction false} PrefixFree(v: Json, w: Json, t: Text, u: Text)
    requires Ends(t) && Ends(u) && Print(v) + t == Print(w) + u
    ensures Print(v) == Print(w) && t == u
    decreases v
  {
    SameKind(v, w, t, u);
    match v
    case Null => CancelPrefix(Print(v), Print(w), t, u);
    case Bool(_) => CancelPrefix(Print(v), Print(w), t, u);
    case Num(text) => NumbersArePrefixFree(text, w.text, t, u);
    case Str(units) => QuotesArePrefixFree(units, w.units, t, u);
    case Arr(items) =>
      BracketsArePrefixFree(OPEN_ARRAY, CLOSE_ARRAY, Join(PrintItems(items)), Join(PrintItems(w.items)), t, u);
      ItemsArePrefixFree(items, w.items, t, u);
    case Obj(members) =>
      var es, fs := Sort(Entries(members)), Sort(Entries(w.members));
      BracketsArePrefixFree(OPEN_OBJECT, CLOSE_OBJECT, JoinEntries(es), JoinEntries(fs), t, u);
      SortedIsPrinted(members);
      SortedIsPrinted(w.members);
      EntriesArePrefixFree(members, es, w.members, fs, t, u);
  }

  lemma SortedIsPrinted(members: seq<Member>)
    ensures PrintedFrom(Sort(Entries(members)), members)
  {
    SortKeepsEntries(Entries(members));
  }

  lemma {:induction false} ItemsArePrefixFree(xs: seq<Json>, ys: seq<Json>, t: Text, u: Text)
    requires Join(PrintItems(xs)) + ([CLOSE_ARRAY] + t) == Join(PrintItems(ys)) + ([CLOSE_ARRAY] + u)
    ensures PrintItems(xs) == PrintItems(ys) && t == u
    decreases xs
  {
    var a, b := PrintItems(xs), PrintItems(ys);
    if xs == [] || ys == [] {
      EmptyItems(xs, ys, t, u);
    } else {
      SplitJoin(a, [CLOSE_ARRAY] + t);
      SplitJoin(b, [CLOSE_ARRAY] + u);
      PrefixFree(xs[0], ys[0], AfterFirst(a) + ([CLOSE_ARRAY] + t), AfterFirst(b) + ([CLOSE_ARRAY] + u));
      assert a[1..] == PrintItems(xs[1..]) && b[1..] == PrintItems(ys[1..]);
      if |xs| == 1 || |ys| == 1 {
        assert |xs| == |ys|;
        CancelPrefix([CLOSE_ARRAY], [CLOSE_ARRAY], t, u);
      } else {
        CancelPrefix([COMMA], [COMMA], Join(a[1..]) + ([CLOSE_ARRAY] + t), Join(b[1..]) + ([CLOSE_ARRAY] + u));
        ItemsArePrefixFree(xs[1..], ys[1..], t, u);
      }
      assert a == [a[0]] + a[1..] && b == [b[0]] + b[1..];
    }
  }

  lemma EmptyItems(xs: seq<Json>, ys: seq<Json>, t: Text, u: Text)
    requires Join(PrintItems(xs)) + ([CLOSE_ARRAY] + t) == Join(PrintItems(ys)) + ([CLOSE_ARRAY] + u)
    requires xs == [] || ys == []
    ensures xs == ys == [] && t == u
  {
    JoinBegins(xs, t);
    JoinBegins(ys, u);
    CancelPrefix([CLOSE_ARRAY], [CLOSE_ARRAY], t, u);
  }

  lemma JoinBegins(xs: seq<Json>, t: Text)
    ensures (Join(PrintItems(xs)) + ([CLOSE_ARRAY] + t))[0] == CLOSE_ARRAY <==> xs == []
    ensures xs == [] ==> Join(PrintItems(xs)) + ([CLOSE_ARRAY] + t) == [CLOSE_ARRAY] + t
  {
    if xs != [] {
      PrintBegins(xs[0]);
    }
  }

  /** Each entry prints a member. */
  ghost predicate PrintedFrom(es: seq<Entry>, members: seq<Member>) {
    forall k | 0 <= k < |es| :: IsPrinted(es[k], members)
  }

  ghost predicate IsPrinted(e: Entry, members: seq<Member>) {
    exists i :: 0 <= i < |members| && e == Entry(members[i].key, Print(members[i].value))
  }

  lemma {:induction false} EntriesArePrefixFree(ms: seq<Member>, es: seq<Entry>, ns: seq<Member>, fs: seq<Entry>,
                                                t: Text, u: Text)
    requires PrintedFrom(es, ms) && PrintedFrom(fs, ns)
    requires JoinEntries(es) + ([CLOSE_OBJECT] + t) == JoinEntries(fs) + ([CLOSE_OBJECT] + u)
    ensures es == fs && t == u
    decreases ms, |es|
  {
    if es == [] || fs == [] {
      EmptyEntries(es, fs, t, u);
    } else {
      FirstEntriesAgree(ms, es, ns, fs, t, u);
      RestAgrees(es, fs, t, u);
      if |es| > 1 {
        RestIsPrinted(ms, es);
        RestIsPrinted(ns, fs);
        EntriesArePrefixFree(ms, es[1..], ns, fs[1..], t, u);
      }
      SameFromFirst(es, fs);
    }
  }

  lemma SameFromFirst(es: seq<Entry>, fs: seq<Entry>)
    requires es != [] && fs != [] && es[0] == fs[0] && es[1..] == fs[1..]
    ensures es == fs
  {
    assert es == [es[0]] + es[1..] && fs == [fs[0]] + fs[1..];
  }

  lemma RestIsPrinted(ms: seq<Member>, es: seq<Entry>)
    requires PrintedFrom(es, ms) && es != []
    ensures PrintedFrom(es[1..], ms)
  {
  }

  lemma FirstEntriesAgree(ms: seq<Member>, es: seq<Entry>, ns: seq<Member>, fs: seq<Entry>, t: Text, u: Text)
    requires PrintedFrom(es, ms) && PrintedFrom(fs, ns) && es != [] && fs != []
    requires JoinEntries(es) + ([CLOSE_OBJECT] + t) == JoinEntries(fs) + ([CLOSE_OBJECT] + u)
    ensures es[0] == fs[0]
    ensures AfterFirstEntry(es) + ([CLOSE_OBJECT] + t) == AfterFirstEntry(fs) + ([CLOSE_OBJECT] + u)
    decreases ms, 0
  {
    FirstEntriesSplit(es, fs, [CLOSE_OBJECT] + t, [CLOSE_OBJECT] + u);
    var i :| 0 <= i < |ms| && es[0] == Entry(ms[i].key, Print(ms[i].value));
    var j :| 0 <= j < |ns| && fs[0] == Entry(ns[j].key, Print(ns[j].value));
    PrefixFree(ms[i].value, ns[j].value, AfterFirstEntry(es) + ([CLOSE_OBJECT] + t),
               AfterFirstEntry(fs) + ([CLOSE_OBJECT] + u));
  }

  /** After equal first entries both texts go on with another entry, or both end. */
  lemma RestAgrees(es: seq<Entry>, fs: seq<Entry>, t: Text, u: Text)
    requires es != [] && fs != []
    requires AfterFirstEntry(es) + ([CLOSE_OBJECT] + t) == AfterFirstEntry(fs) + ([CLOSE_OBJECT] + u)
    ensures |es| == 1 <==> |fs| == 1
    ensures |es| == 1 ==> t == u
    ensures |es| > 1 ==> JoinEntries(es[1..]) + ([CLOSE_OBJECT] + t) == JoinEntries(fs[1..]) + ([CLOSE_OBJECT] + u)
  {
    SplitEntries(es, [CLOSE_OBJECT] + t);
    SplitEntries(fs, [CLOSE_OBJECT] + u);
    assert (AfterFirstEntry(es) + ([CLOSE_OBJECT] + t))[0] == if |es| == 1 then CLOSE_OBJECT else COMMA;
    assert (AfterFirstEntry(fs) + ([CLOSE_OBJECT] + u))[0] == if |fs| == 1 then CLOSE_OBJECT else COMMA;
    if |es| == 1 {
      CancelPrefix([CLOSE_OBJECT], [CLOSE_OBJECT], t, u);
    } else {
      CancelPrefix([COMMA], [COMMA], JoinEntries(es[1..]) + ([CLOSE_OBJECT] + t),
                   JoinEntries(fs[1..]) + ([CLOSE_OBJECT] + u));
    }
  }

  lemma FirstEntriesSplit(es: seq<Entry>, fs: seq<Entry>, t: Text, u: Text)
    requires es != [] && fs != [] && JoinEntries(es) + t == JoinEntries(fs) + u
    ensures es[0].key == fs[0].key
    ensures es[0].text + (AfterFirstEntry(es) + t) == fs[0].text + (AfterFirstEntry(fs) + u)
  {
    SplitEntries(es, t);
    SplitEntries(fs, u);
    EntrySplits(es[0], fs[0], AfterFirstEntry(es) + t, AfterFirstEntry(fs) + u);
  }

  lemma EmptyEntries(es: seq<Entry>, fs: seq<Entry>, t: Text, u: Text)
    requires JoinEntries(es) + ([CLOSE_OBJECT] + t) == JoinEntries(fs) + ([CLOSE_OBJECT] + u)
    requires es == [] || fs == []
    ensures es == fs == [] && t == u
  {
    EntriesBegin(es, t);
    EntriesBegin(fs, u);
    CancelPrefix([CLOSE_OBJECT], [CLOSE_OBJECT], t, u);
  }

  lemma EntriesBegin(es: seq<Entry>, t: Text)
    ensures (JoinEntries(es) + ([CLOSE_OBJECT] + t))[0] == CLOSE_OBJECT <==> es == []
    ensures es == [] ==> JoinEntries(es) + ([CLOSE_OBJECT] + t) == [CLOSE_OBJECT] + t
  {
    if es != [] {
      assert EntryText(es[0])[0] == QUOTE;
    }
  }

  // ----- The canonical form -----

  lemma TakingOut(fs: seq<Entry>, j: nat)
    requires j < |fs|
    ensures multiset(fs) == multiset{fs[j]} + multiset(fs[..j] + fs[j + 1..])
    ensures forall e | e in fs && e != fs[j] :: e in fs[..j] + fs[j + 1..]
  {
    assert fs == fs[..j] + [fs[j]] + fs[j + 1..];
  }

  lemma {:induction false} SameEntries(es: seq<Entry>, fs: seq<Entry>)
    requires DistinctEntryKeys(es) && |es| == |fs|
    requires forall i | 0 <= i < |es| :: es[i] in fs
    ensures multiset(es) == multiset(fs)
  {
    if es != [] {
      var j :| 0 <= j < |fs| && fs[j] == es[0];
      var rest, fs' := es[1..], fs[..j] + fs[j + 1..];
      TakingOut(fs, j);
      assert es == [es[0]] + rest;
      forall i | 0 <= i < |rest|
        ensures rest[i] in fs'
      {
        assert rest[i] == es[i + 1] && es[i + 1].key != es[0].key;
      }
      SameEntries(rest, fs');
    }
  }

  lemma {:induction false} EquivalentPrintAlike(v: Json, w: Json)
    requires WellFormed(v) && WellFormed(w) && Equivalent(v, w)
    ensures Print(v) == Print(w)
    decreases v
  {
    match v
    case Arr(xs) =>
      forall i | 0 <= i < |xs|
        ensures PrintItems(xs)[i] == PrintItems(w.items)[i]
      {
        EquivalentPrintAlike(xs[i], w.items[i]);
      }
      assert PrintItems(xs) == PrintItems(w.items);
    case Obj(ms) =>
      var es, fs := Entries(ms), Entries(w.members);
      forall i | 0 <= i < |ms|
        ensures es[i] in fs
      {
        assert HasEquivalent(ms[i], w.members);
        var j :| 0 <= j < |w.members| && w.members[j].key == ms[i].key && Equivalent(ms[i].value, w.members[j].value);
        EquivalentPrintAlike(ms[i].value, w.members[j].value);
        assert es[i] == fs[j];
      }
      SameEntries(es, fs);
      SortSorts(es);
      SortSorts(fs);
      AscendingIsUnique(Sort(es), Sort(fs));
    case _ =>
  }

  lemma {:induction false} PrintAlikeMeansEquivalent(v: Json, w: Json)
    requires WellFormed(v) && WellFormed(w) && Print(v) == Print(w)
    ensures Equivalent(v, w)
    decreases v
  {
    SameKind(v, w, [], []);
    match v
    case Str(units) => QuotesArePrefixFree(units, w.units, [], []);
    case Arr(xs) =>
      ArraysPrintTheSameItems(xs, w.items);
      forall i | 0 <= i < |xs|
        ensures Equivalent(xs[i], w.items[i])
      {
        PrintAlikeMeansEquivalent(xs[i], w.items[i]);
      }
    case Obj(ms) =>
      ObjectsPrintTheSameMembers(ms, w.members);
      forall i | 0 <= i < |ms|
        ensures HasEquivalent(ms[i], w.members)
      {
        var j :| 0 <= j < |w.members| && w.members[j].key == ms[i].key
                 && Print(ms[i].value) == Print(w.members[j].value);
        PrintAlikeMeansEquivalent(ms[i].value, w.members[j].value);
      }
    case _ =>
  }

  lemma ArraysPrintTheSameItems(xs: seq<Json>, ys: seq<Json>)
    requires Print(Arr(xs)) == Print(Arr(ys))
    ensures |xs| == |ys| && forall i | 0 <= i < |xs| :: Print(xs[i]) == Print(ys[i])
  {
    BracketsArePrefixFree(OPEN_ARRAY, CLOSE_ARRAY, Join(PrintItems(xs)), Join(PrintItems(ys)), [], []);
    ItemsArePrefixFree(xs, ys, [], []);
    assert |xs| == |PrintItems(xs)| == |PrintItems(ys)| == |ys|;
    assert forall i | 0 <= i < |xs| :: PrintItems(xs)[i] == PrintItems(ys)[i];
  }

  lemma ObjectsPrintTheSameMembers(ms: seq<Member>, ns: seq<Member>)
    requires Print(Obj(ms)) == Print(Obj(ns))
    ensures |ms| == |ns|
    ensures forall i | 0 <= i < |ms| ::
              exists j :: 0 <= j < |ns| && ns[j].key == ms[i].key && Print(ms[i].value) == Print(ns[j].value)
  {
    ObjectsPrintTheSameEntries(ms, ns);
    forall i | 0 <= i < |ms|
      ensures exists j :: 0 <= j < |ns| && ns[j].key == ms[i].key && Print(ms[i].value) == Print(ns[j].value)
    {
      assert Entries(ms)[i] in multiset(Entries(ms));
      var j :| 0 <= j < |ns| && Entries(ns)[j] == Entries(ms)[i];
    }
  }

  lemma ObjectsPrintTheSameEntries(ms: seq<Member>, ns: seq<Member>)
    requires Print(Obj(ms)) == Print(Obj(ns))
    ensures |ms| == |ns| && multiset(Entries(ms)) == multiset(Entries(ns))
  {
    var es, fs := Sort(Entries(ms)), Sort(Entries(ns));
    BracketsArePrefixFree(OPEN_OBJECT, CLOSE_OBJECT, JoinEntries(es), JoinEntries(fs), [], []);
    SortedIsPrinted(ms);
    SortedIsPrinted(ns);
    EntriesArePrefixFree(ms, es, ns, fs, [], []);
    SortKeepsEntries(Entries(ms));
    SortKeepsEntries(Entries(ns));
    assert |multiset(Entries(ms))| == |multiset(Entries(ns))|;
  }

  /** Two JSON values print the same text exactly when they are equal up to the order of object keys. */
  lemma StableJsonIsCanonical(v: Json, w: Json)
    requires WellFormed(v) && WellFormed(w)
    ensures Print(v) == Print(w) <==> Equivalent(v, w)
  {
    if Print(v) == Print(w) {
      PrintAlikeMeansEquivalent(v, w);
    }
    if Equivalent(v, w) {
      EquivalentPrintAlike(v, w);
    }
  }

  lemma {:induction false} EquivalentIsReflexive(v: Json)
    ensures Equivalent(v, v)
    decreases v
  {
    match v
    case Arr(xs) =>
      forall i | 0 <= i < |xs|
        ensures Equivalent(xs[i], xs[i])
      {
        EquivalentIsReflexive(xs[i]);
      }
    case Obj(ms) =>
      forall i | 0 <= i < |ms|
        ensures HasEquivalent(ms[i], ms)
      {
        EquivalentIsReflexive(ms[i].value);
        assert ms[i].key == ms[i].key;
      }
    case _ =>
  }

  // ----- The shape of a plan's operations -----

  /** `{ ...members, [key]: value }`: the key keeps its place when it is there. */
  function SetMember(members: seq<Member>, key: Text, value: Json): seq<Member> {
    if members == [] then [Member(key, value)]
    else if members[0].key == key then [Member(key, value)] + members[1..]
    else [members[0]] + SetMember(members[1..], key, value)
  }

  predicate HasKey(members: seq<Member>, key: Text) {
    exists i :: 0 <= i < |members| && members[i].key == key
  }

  lemma {:induction false} SetMemberSets(members: seq<Member>, key: Text, value: Json)
    requires DistinctKeys(members)
    ensures DistinctKeys(SetMember(members, key, value))
    ensures Member(key, value) in SetMember(members, key, value)
    ensures forall m | m in SetMember(members, key, value) :: if m.key == key then m.value == value else m in members
    ensures forall m | m in members && m.key != key :: m in SetMember(members, key, value)
  {
    var after := SetMember(members, key, value);
    if members != [] {
      assert members == [members[0]] + members[1..];
      if members[0].key == key {
        assert after[0] == Member(key, value);
      } else {
        SetMemberSets(members[1..], key, value);
        assert after == [members[0]] + SetMember(members[1..], key, value);
        forall j | 1 <= j < |after|
          ensures after[j].key != members[0].key
        {
          assert after[j] in SetMember(members[1..], key, value);
          if after[j].key != key {
            var i :| 0 <= i < |members[1..]| && members[1..][i] == after[j];
            assert members[i + 1] == after[j];
          }
        }
      }
    }
  }

  ghost function Keys(members: seq<Member>): set<Text> {
    set i | 0 <= i < |members| :: members[i].key
  }

  lemma {:induction false} KeysCount(members: seq<Member>)
    requires DistinctKeys(members)
    ensures |Keys(members)| == |members|
  {
    if members != [] {
      var init := members[..|members| - 1];
      KeysCount(init);
      KeysGrow(members);
      assert members[|members| - 1].key !in Keys(init);
    }
  }

  lemma KeysGrow(members: seq<Member>)
    requires members != []
    ensures Keys(members) == Keys(members[..|members| - 1]) + {members[|members| - 1].key}
  {
    var init := members[..|members| - 1];
    forall k | k in Keys(init)
      ensures k in Keys(members)
    {
      var i :| 0 <= i < |init| && init[i].key == k;
      assert members[i].key == k;
    }
    forall k | k in Keys(members) && k != members[|members| - 1].key
      ensures k in Keys(init)
    {
      var i :| 0 <= i < |members| && members[i].key == k;
      assert init[i].key == k;
    }
  }

  /** Every member of `ms` has an equivalent member in `ns`. */
  ghost predicate Included(ms: seq<Member>, ns: seq<Member>) {
    forall m | m in ms :: exists n :: n in ns && n.key == m.key && Equivalent(m.value, n.value)
  }

  lemma IncludedIsEquivalent(ms: seq<Member>, ns: seq<Member>)
    requires DistinctKeys(ms) && DistinctKeys(ns) && Included(ms, ns) && Keys(ms) == Keys(ns)
    ensures Equivalent(Obj(ms), Obj(ns))
  {
    KeysCount(ms);
    KeysCount(ns);
    forall i | 0 <= i < |ms|
      ensures HasEquivalent(ms[i], ns)
    {
      assert ms[i] in ms;
      var n :| n in ns && n.key == ms[i].key && Equivalent(ms[i].value, n.value);
      var j :| 0 <= j < |ns| && ns[j] == n;
    }
  }

  lemma EquivalentIsIncluded(ms: seq<Member>, ns: seq<Member>)
    requires DistinctKeys(ms) && DistinctKeys(ns) && Equivalent(Obj(ms), Obj(ns))
    ensures Included(ms, ns) && Keys(ms) == Keys(ns)
  {
    forall m | m in ms
      ensures exists n :: n in ns && n.key == m.key && Equivalent(m.value, n.value)
    {
      var i :| 0 <= i < |ms| && ms[i] == m;
      assert HasEquivalent(ms[i], ns);
      var j :| 0 <= j < |ns| && ns[j].key == ms[i].key && Equivalent(ms[i].value, ns[j].value);
      assert ns[j] in ns;
    }
    assert Keys(ms) <= Keys(ns);
    KeysCount(ms);
    KeysCount(ns);
    assert |Keys(ns) - Keys(ms)| == |Keys(ns)| - |Keys(ms)|;
  }

  lemma ObjectsAreEquivalent(ms: seq<Member>, ns: seq<Member>)
    requires DistinctKeys(ms) && DistinctKeys(ns)
    ensures Equivalent(Obj(ms), Obj(ns)) <==> Included(ms, ns) && Keys(ms) == Keys(ns)
  {
    if Included(ms, ns) && Keys(ms) == Keys(ns) {
      IncludedIsEquivalent(ms, ns);
    }
    if Equivalent(Obj(ms), Obj(ns)) {
      EquivalentIsIncluded(ms, ns);
    }
  }

  /** Apart from `key`, the two objects have the same keys with equivalent values. */
  ghost predicate AgreeBut(ms: seq<Member>, ns: seq<Member>, key: Text) {
    && (forall m | m in ms && m.key != key :: exists n :: n in ns && n.key == m.key && Equivalent(m.value, n.value))
    && Keys(ms) - {key} == Keys(ns) - {key}
  }

  lemma SetMemberKeys(members: seq<Member>, key: Text, value: Json)
    requires DistinctKeys(members)
    ensures Keys(SetMember(members, key, value)) == Keys(members) + {key}
  {
    SetMemberSets(members, key, value);
    var after := SetMember(members, key, value);
    forall k | k in Keys(after)
      ensures k in Keys(members) + {key}
    {
      var i :| 0 <= i < |after| && after[i].key == k;
      assert after[i] in after;
      if k != key {
        var j :| 0 <= j < |members| && members[j] == after[i];
      }
    }
    forall k | k in Keys(members) + {key}
      ensures k in Keys(after)
    {
      if k == key {
        var i :| 0 <= i < |after| && after[i] == Member(key, value);
      } else {
        var j :| 0 <= j < |members| && members[j].key == k;
        assert members[j] in after;
        var i :| 0 <= i < |after| && after[i] == members[j];
      }
    }
  }

  /**
   The plan-shape test prints both inputs with the same placeholder at `key`: it accepts exactly the
   inputs that differ at most in `key`.
   */
  lemma ShapeTestIsExact(ms: seq<Member>, ns: seq<Member>, key: Text, placeholder: Text)
    requires WellFormed(Obj(ms)) && WellFormed(Obj(ns))
    ensures Print(Obj(SetMember(ms, key, Str(placeholder)))) == Print(Obj(SetMember(ns, key, Str(placeholder)))) <==>
              AgreeBut(ms, ns, key)
  {
    var mark := Str(placeholder);
    var ms', ns' := SetMember(ms, key, mark), SetMember(ns, key, mark);
    SetMemberSets(ms, key, mark);
    SetMemberSets(ns, key, mark);
    SetMemberKeys(ms, key, mark);
    SetMemberKeys(ns, key, mark);
    SetMemberIsWellFormed(ms, key, mark);
    SetMemberIsWellFormed(ns, key, mark);
    StableJsonIsCanonical(Obj(ms'), Obj(ns'));
    ObjectsAreEquivalent(ms', ns');
    IncludedButKey(ms, ns, key, mark);
    WithOrWithout(Keys(ms), Keys(ns), key);
  }

  lemma WithOrWithout(a: set<Text>, b: set<Text>, key: Text)
    ensures a + {key} == b + {key} <==> a - {key} == b - {key}
  {
    assert a - {key} == (a + {key}) - {key} && b - {key} == (b + {key}) - {key};
    assert a + {key} == (a - {key}) + {key} && b + {key} == (b - {key}) + {key};
  }

  lemma SetMemberIsWellFormed(members: seq<Member>, key: Text, value: Json)
    requires WellFormed(Obj(members)) && WellFormed(value)
    ensures WellFormed(Obj(SetMember(members, key, value)))
  {
    SetMemberSets(members, key, value);
    var after := SetMember(members, key, value);
    forall i | 0 <= i < |after|
      ensures WellFormed(after[i].value)
    {
      assert after[i] in after;
      if after[i].key != key {
        var j :| 0 <= j < |members| && members[j] == after[i];
      }
    }
  }

  lemma IncludedButKey(ms: seq<Member>, ns: seq<Member>, key: Text, mark: Json)
    requires DistinctKeys(ms) && DistinctKeys(ns) && mark.Str?
    ensures Included(SetMember(ms, key, mark), SetMember(ns, key, mark))
       <==> forall m | m in ms && m.key != key :: exists n :: n in ns && n.key == m.key && Equivalent(m.value, n.value)
  {
    var ms', ns' := SetMember(ms, key, mark), SetMember(ns, key, mark);
    SetMemberSets(ms, key, mark);
    SetMemberSets(ns, key, mark);
    if Included(ms', ns') {
      forall m | m in ms && m.key != key
        ensures exists n :: n in ns && n.key == m.key && Equivalent(m.value, n.value)
      {
        var n :| n in ns' && n.key == m.key && Equivalent(m.value, n.value);
        assert n in ns;
      }
    }
    if forall m | m in ms && m.key != key :: exists n :: n in ns && n.key == m.key && Equivalent(m.value, n.value) {
      forall m | m in ms'
        ensures exists n :: n in ns' && n.key == m.key && Equivalent(m.value, n.value)
      {
        if m.key == key {
          assert Equivalent(mark, mark) && Member(key, mark) in ns';
        } else {
          var n :| n in ns && n.key == m.key && Equivalent(m.value, n.value);
          assert n in ns';
        }
      }
    }
  }
}
