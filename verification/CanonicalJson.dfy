/** The canonical JSON printer of observer/adoption.ts: keys sorted at every level, then JSON.stringify. */
module CanonicalJson {
  import opened Sequences
  import opened Text

  /** A JSON value; numbers are integers. An object lists its members in insertion order. */
  datatype Json = Null | Bool(value: bool) | Number(n: int) | String(text: Text) | Array(items: Items) | Object(members: Members)

  datatype Items = NoItem | Item(head: Json, rest: Items)

  datatype Members = NoMember | Member(key: Text, value: Json, rest: Members)

  const QUOTE: Unit := 34
  const COMMA: Unit := 44
  const MINUS: Unit := 45
  const COLON: Unit := 58
  const OPEN_BRACKET: Unit := 91
  const BACKSLASH: Unit := 92
  const CLOSE_BRACKET: Unit := 93
  const OPEN_BRACE: Unit := 123
  const CLOSE_BRACE: Unit := 125

  // ---- Objects as maps. ----

  function Keys(m: Members): set<Text> {
    match m
    case NoMember => {}
    case Member(key, _, rest) => {key} + Keys(rest)
  }

  function Lookup(m: Members, key: Text): (v: Json)
    requires key in Keys(m)
    ensures v < m
  {
    if m.key == key then m.value else Lookup(m.rest, key)
  }

  /** No object repeats a key. */
  predicate WellFormed(v: Json) {
    match v
    case Array(items) => ItemsWellFormed(items)
    case Object(members) => MembersWellFormed(members)
    case _ => true
  }

  predicate ItemsWellFormed(items: Items) {
    items.NoItem? || (WellFormed(items.head) && ItemsWellFormed(items.rest))
  }

  predicate MembersWellFormed(m: Members) {
    m.NoMember? || (m.key !in Keys(m.rest) && WellFormed(m.value) && MembersWellFormed(m.rest))
  }

  /** Equality with objects read as maps. */
  ghost predicate Same(v: Json, w: Json) {
    match (v, w)
    case (Array(a), Array(b)) => SameItems(a, b)
    case (Object(a), Object(b)) => Keys(a) == Keys(b) && forall k :: k in Keys(a) ==> Same(Lookup(a, k), Lookup(b, k))
    case _ => v == w
  }

  ghost predicate SameItems(a: Items, b: Items) {
    match (a, b)
    case (NoItem, NoItem) => true
    case (Item(v, restA), Item(w, restB)) => Same(v, w) && SameItems(restA, restB)
    case _ => false
  }

  // ---- Key order. ----

  /** The order of Array.prototype.sort on strings: by code units. */
  predicate Less(a: Text, b: Text) {
    b != [] && (a == [] || a[0] < b[0] || (a[0] == b[0] && Less(a[1..], b[1..])))
  }

  lemma {:induction false} LessTotal(a: Text, b: Text)
    ensures Less(a, b) || a == b || Less(b, a)
    ensures !(Less(a, b) && Less(b, a)) && !Less(a, a)
    decreases |a|
  {
    if a != [] {
      LessTotal(a[1..], a[1..]);
      if b != [] {
        LessTotal(a[1..], b[1..]);
        assert a == [a[0]] + a[1..] && b == [b[0]] + b[1..];
      }
    }
  }

  lemma {:induction false} LessTransitive(a: Text, b: Text, c: Text)
    requires Less(a, b) && Less(b, c)
    ensures Less(a, c)
    decreases |a|
  {
    if a != [] && a[0] == b[0] == c[0] {
      LessTransitive(a[1..], b[1..], c[1..]);
    }
  }

  function Insert(key: Text, value: Json, m: Members): Members {
    if m.NoMember? || Less(key, m.key) then Member(key, value, m) else Member(m.key, m.value, Insert(key, value, m.rest))
  }

  function Sort(m: Members): Members {
    match m
    case NoMember => NoMember
    case Member(key, value, rest) => Insert(key, value, Sort(rest))
  }

  ghost predicate Sorted(m: Members) {
    m.NoMember? || ((forall k :: k in Keys(m.rest) ==> Less(m.key, k)) && Sorted(m.rest))
  }

  lemma {:induction false} InsertSorted(key: Text, value: Json, m: Members)
    requires Sorted(m) && key !in Keys(m)
    ensures Sorted(Insert(key, value, m)) && Keys(Insert(key, value, m)) == Keys(m) + {key}
    ensures Lookup(Insert(key, value, m), key) == value
    ensures forall k :: k in Keys(m) ==> Lookup(Insert(key, value, m), k) == Lookup(m, k)
  {
    if m.Member? {
      LessTotal(key, m.key);
      if Less(key, m.key) {
        forall k | k in Keys(m.rest) ensures Less(key, k) { LessTransitive(key, m.key, k); }
      } else {
        InsertSorted(key, value, m.rest);
      }
    }
  }

  ghost predicate Unrepeated(m: Members) {
    m.NoMember? || (m.key !in Keys(m.rest) && Unrepeated(m.rest))
  }

  lemma {:induction false} SortSorts(m: Members)
    requires Unrepeated(m)
    ensures Sorted(Sort(m)) && Keys(Sort(m)) == Keys(m)
    ensures forall k :: k in Keys(m) ==> Lookup(Sort(m), k) == Lookup(m, k)
  {
    if m.Member? {
      SortSorts(m.rest);
      InsertSorted(m.key, m.value, Sort(m.rest));
    }
  }

  /** A sorted object is determined by what it maps. */
  lemma {:induction false} SortedUnique(a: Members, b: Members)
    requires Sorted(a) && Sorted(b) && Keys(a) == Keys(b) && forall k :: k in Keys(a) ==> Lookup(a, k) == Lookup(b, k)
    ensures a == b
  {
    if a.Member? && b.Member? {
      LessTotal(a.key, b.key);
      assert a.key in Keys(b) && b.key in Keys(a);
      assert a.key == b.key;
      LessTotal(a.key, a.key);
      assert a.key !in Keys(a.rest) && b.key !in Keys(b.rest);
      assert Keys(a.rest) == Keys(a) - {a.key} && Keys(b.rest) == Keys(b) - {b.key};
      assert Lookup(a, a.key) == Lookup(b, a.key);
      forall k | k in Keys(a.rest) ensures Lookup(a.rest, k) == Lookup(b.rest, k) {
        assert Lookup(a, k) == Lookup(b, k);
      }
      SortedUnique(a.rest, b.rest);
    }
  }

  // ---- Normal form. ----

  /** Every object with its keys sorted. */
  function Normal(v: Json): Json {
    match v
    case Array(items) => Array(NormalItems(items))
    case Object(members) => Object(Sort(NormalMembers(members)))
    case _ => v
  }

  function NormalItems(items: Items): Items {
    match items
    case NoItem => NoItem
    case Item(head, rest) => Item(Normal(head), NormalItems(rest))
  }

  function NormalMembers(m: Members): Members {
    match m
    case NoMember => NoMember
    case Member(key, value, rest) => Member(key, Normal(value), NormalMembers(rest))
  }

  lemma {:induction false} NormalMembersMap(m: Members)
    requires MembersWellFormed(m)
    ensures Keys(NormalMembers(m)) == Keys(m) && Unrepeated(NormalMembers(m))
    ensures forall k :: k in Keys(m) ==> Lookup(NormalMembers(m), k) == Normal(Lookup(m, k))
  {
    if m.Member? {
      NormalMembersMap(m.rest);
    }
  }

  lemma {:induction false} LookupWellFormed(m: Members, k: Text)
    requires MembersWellFormed(m) && k in Keys(m)
    ensures WellFormed(Lookup(m, k))
  {
    if m.key != k {
      LookupWellFormed(m.rest, k);
    }
  }

  /** Two values have one normal form exactly when they are equal with objects read as maps. */
  lemma {:induction false} NormalDecides(v: Json, w: Json)
    requires WellFormed(v) && WellFormed(w)
    ensures Normal(v) == Normal(w) <==> Same(v, w)
  {
    match (v, w)
    case (Array(a), Array(b)) => NormalItemsDecide(a, b);
    case (Object(a), Object(b)) =>
      NormalMembersMap(a);
      NormalMembersMap(b);
      SortSorts(NormalMembers(a));
      SortSorts(NormalMembers(b));
      forall k | k in Keys(a) && k in Keys(b)
        ensures Lookup(NormalMembers(a), k) == Lookup(NormalMembers(b), k) <==> Same(Lookup(a, k), Lookup(b, k))
      {
        LookupWellFormed(a, k);
        LookupWellFormed(b, k);
        NormalDecides(Lookup(a, k), Lookup(b, k));
      }
      if Same(v, w) {
        SortedUnique(Sort(NormalMembers(a)), Sort(NormalMembers(b)));
      }
    case _ =>
  }

  lemma {:induction false} NormalItemsDecide(a: Items, b: Items)
    requires ItemsWellFormed(a) && ItemsWellFormed(b)
    ensures NormalItems(a) == NormalItems(b) <==> SameItems(a, b)
  {
    if a.Item? && b.Item? {
      NormalDecides(a.head, b.head);
      NormalItemsDecide(a.rest, b.rest);
    }
  }

  // ---- Printing. ----

  function HexDigit(n: nat): Unit
    requires n < 16
  {
    if n < 10 then (48 + n) as Unit else (87 + n) as Unit
  }

  function UnicodeEscape(u: Unit): Text {
    var n := u as nat;
    [BACKSLASH, 117, HexDigit(n / 4096), HexDigit(n / 256 % 16), HexDigit(n / 16 % 16), HexDigit(n % 16)]
  }

  /** One code unit that is not part of a surrogate pair. */
  function Escape(u: Unit): Text {
    if u == QUOTE || u == BACKSLASH then [BACKSLASH, u]
    else if u == 8 then [BACKSLASH, 98]
    else if u == 9 then [BACKSLASH, 116]
    else if u == 10 then [BACKSLASH, 110]
    else if u == 12 then [BACKSLASH, 102]
    else if u == 13 then [BACKSLASH, 114]
    else if u < 32 || HighSurrogate(u) || LowSurrogate(u) then UnicodeEscape(u)
    else [u]
  }

  predicate StartsPair(t: Text) {
    |t| >= 2 && HighSurrogate(t[0]) && LowSurrogate(t[1])
  }

  function EscapeAll(t: Text): Text {
    if t == [] then []
    else if StartsPair(t) then t[..2] + EscapeAll(t[2..])
    else Escape(t[0]) + EscapeAll(t[1..])
  }

  function Quoted(t: Text): Text {
    [QUOTE] + EscapeAll(t) + [QUOTE]
  }

  function Digits(n: nat): (t: Text)
    ensures t != [] && forall i :: 0 <= i < |t| ==> 48 <= t[i] < 58
  {
    (if n < 10 then [] else Digits(n / 10)) + [(48 + n % 10) as Unit]
  }

  function Print(v: Json): Text {
    match v
    case Null => [110, 117, 108, 108]
    case Bool(b) => if b then [116, 114, 117, 101] else [102, 97, 108, 115, 101]
    case Number(n) => if n < 0 then [MINUS] + Digits(-n) else Digits(n)
    case String(t) => Quoted(t)
    case Array(items) => [OPEN_BRACKET] + PrintItems(items) + [CLOSE_BRACKET]
    case Object(members) => [OPEN_BRACE] + PrintMembers(members) + [CLOSE_BRACE]
  }

  function PrintItems(items: Items): Text {
    match items
    case NoItem => []
    case Item(head, rest) => Print(head) + if rest.NoItem? then [] else [COMMA] + PrintItems(rest)
  }

  function PrintMembers(m: Members): Text {
    match m
    case NoMember => []
    case Member(key, value, rest) => Quoted(key) + [COLON] + Print(value) + if rest.NoMember? then [] else [COMMA] + PrintMembers(rest)
  }

  function Canonical(v: Json): Text {
    Print(Normal(v))
  }

  // ---- Printing can be undone. ----

  lemma HexDigitsDiffer(a: nat, b: nat)
    requires a < 16 && b < 16 && HexDigit(a) == HexDigit(b)
    ensures a == b
  {
  }

  lemma UnicodeEscapesDiffer(u: Unit, v: Unit)
    requires UnicodeEscape(u) == UnicodeEscape(v)
    ensures u == v
  {
    var a, b := UnicodeEscape(u), UnicodeEscape(v);
    assert a[2] == b[2] && a[3] == b[3] && a[4] == b[4] && a[5] == b[5];
    var m, n := u as nat, v as nat;
    HexDigitsDiffer(m / 4096, n / 4096);
    HexDigitsDiffer(m / 256 % 16, n / 256 % 16);
    HexDigitsDiffer(m / 16 % 16, n / 16 % 16);
    HexDigitsDiffer(m % 16, n % 16);
    HexValue(m);
    HexValue(n);
  }

  lemma HexValue(n: nat)
    ensures n == n / 4096 * 4096 + n / 256 % 16 * 256 + n / 16 % 16 * 16 + n % 16
  {
    assert n / 16 / 16 == n / 256 && n / 256 / 16 == n / 4096;
  }

  lemma TextTails(a: Text, b: Text, s: Text, t: Text)
    requires a + s == b + t && |a| == |b|
    ensures a == b && s == t
  {
    assert a == (a + s)[..|a|] && b == (b + t)[..|b|];
    assert s == (a + s)[|a|..] && t == (b + t)[|b|..];
  }

  /** An escape says where it ends. */
  lemma EscapeUnique(u: Unit, v: Unit, s: Text, t: Text)
    requires Escape(u) + s == Escape(v) + t
    ensures u == v && s == t
  {
    var a, b := Escape(u), Escape(v);
    assert a[0] == (a + s)[0] == (b + t)[0] == b[0];
    assert |a| > 1 ==> a[1] == (a + s)[1];
    assert |b| > 1 ==> b[1] == (b + t)[1];
    TextTails(a, b, s, t);
    if |a| == 6 {
      UnicodeEscapesDiffer(u, v);
    }
  }

  /** What a quoted text prints after its opening quote, followed by `s`. */
  function QuotedThen(t: Text, s: Text): Text {
    if t == [] then [QUOTE] + s
    else if StartsPair(t) then t[..2] + QuotedThen(t[2..], s)
    else Escape(t[0]) + QuotedThen(t[1..], s)
  }

  lemma {:induction false} QuotedIs(t: Text, s: Text)
    ensures EscapeAll(t) + [QUOTE] + s == QuotedThen(t, s)
    decreases |t|
  {
    if t == [] {
    } else if StartsPair(t) {
      QuotedIs(t[2..], s);
      assert t[..2] + EscapeAll(t[2..]) + [QUOTE] + s == t[..2] + (EscapeAll(t[2..]) + [QUOTE] + s);
    } else {
      QuotedIs(t[1..], s);
      assert Escape(t[0]) + EscapeAll(t[1..]) + [QUOTE] + s == Escape(t[0]) + (EscapeAll(t[1..]) + [QUOTE] + s);
    }
  }

  lemma FirstQuoted(t: Text, s: Text)
    ensures QuotedThen(t, s) != []
    ensures QuotedThen(t, s)[0] == QUOTE <==> t == []
    ensures HighSurrogate(QuotedThen(t, s)[0]) <==> StartsPair(t)
  {
  }

  /** A quoted string says where it ends, and what it holds. */
  lemma {:induction false} QuotedUnique(a: Text, b: Text, s: Text, t: Text)
    requires QuotedThen(a, s) == QuotedThen(b, t)
    ensures a == b && s == t
    decreases |a|
  {
    FirstQuoted(a, s);
    FirstQuoted(b, t);
    if a == [] {
      TextTails([QUOTE], [QUOTE], s, t);
    } else if StartsPair(a) {
      TextTails(a[..2], b[..2], QuotedThen(a[2..], s), QuotedThen(b[2..], t));
      QuotedUnique(a[2..], b[2..], s, t);
      assert a == a[..2] + a[2..] && b == b[..2] + b[2..];
    } else {
      EscapeUnique(a[0], b[0], QuotedThen(a[1..], s), QuotedThen(b[1..], t));
      QuotedUnique(a[1..], b[1..], s, t);
      assert a == [a[0]] + a[1..] && b == [b[0]] + b[1..];
    }
  }

  predicate IsDigit(u: Unit) {
    48 <= u < 58
  }

  /** What may follow a value inside a text. */
  predicate Delimited(s: Text) {
    s == [] || s[0] == COMMA || s[0] == CLOSE_BRACKET || s[0] == CLOSE_BRACE
  }

  lemma LastDigit(n: nat)
    ensures Digits(n)[|Digits(n)| - 1] == (48 + n % 10) as Unit
    ensures |Digits(n)| == 1 <==> n < 10
    ensures n >= 10 ==> Digits(n)[..|Digits(n)| - 1] == Digits(n / 10)
  {
  }

  lemma {:induction false} DigitsDiffer(m: nat, n: nat)
    requires Digits(m) == Digits(n)
    ensures m == n
    decreases m
  {
    LastDigit(m);
    LastDigit(n);
    assert m % 10 == n % 10;
    if m >= 10 {
      DigitsDiffer(m / 10, n / 10);
    }
  }

  lemma DigitsUnique(m: nat, n: nat, s: Text, t: Text)
    requires Digits(m) + s == Digits(n) + t && Delimited(s) && Delimited(t)
    ensures m == n && s == t
  {
    var a, b := Digits(m), Digits(n);
    // A digit of the longer number would stand where the other text has its delimiter.
    assert forall i :: 0 <= i < |a| ==> IsDigit((a + s)[i]);
    assert forall i :: 0 <= i < |b| ==> IsDigit((b + t)[i]);
    assert s != [] ==> !IsDigit((a + s)[|a|]);
    assert t != [] ==> !IsDigit((b + t)[|b|]);
    TextTails(a, b, s, t);
    DigitsDiffer(m, n);
  }

  /** What a value prints, followed by `s`. */
  function PrintThen(v: Json, s: Text): Text {
    match v
    case String(t) => [QUOTE] + QuotedThen(t, s)
    case Array(items) => [OPEN_BRACKET] + ItemsThen(items, s)
    case Object(members) => [OPEN_BRACE] + MembersThen(members, s)
    case _ => Print(v) + s
  }

  function ItemsThen(items: Items, s: Text): Text {
    match items
    case NoItem => [CLOSE_BRACKET] + s
    case Item(head, rest) => PrintThen(head, if rest.NoItem? then [CLOSE_BRACKET] + s else [COMMA] + ItemsThen(rest, s))
  }

  function MembersThen(m: Members, s: Text): Text {
    match m
    case NoMember => [CLOSE_BRACE] + s
    case Member(key, value, rest) =>
      [QUOTE] + QuotedThen(key, [COLON] + PrintThen(value, if rest.NoMember? then [CLOSE_BRACE] + s else [COMMA] + MembersThen(rest, s)))
  }

  lemma {:induction false} PrintIs(v: Json, s: Text)
    ensures Print(v) + s == PrintThen(v, s)
  {
    match v
    case String(t) =>
      QuotedIs(t, s);
      assert [QUOTE] + EscapeAll(t) + [QUOTE] + s == [QUOTE] + (EscapeAll(t) + [QUOTE] + s);
    case Array(items) =>
      ItemsIs(items, s);
      assert [OPEN_BRACKET] + PrintItems(items) + [CLOSE_BRACKET] + s == [OPEN_BRACKET] + (PrintItems(items) + [CLOSE_BRACKET] + s);
    case Object(members) =>
      MembersIs(members, s);
      assert [OPEN_BRACE] + PrintMembers(members) + [CLOSE_BRACE] + s == [OPEN_BRACE] + (PrintMembers(members) + [CLOSE_BRACE] + s);
    case _ =>
  }

  lemma {:induction false} ItemsIs(items: Items, s: Text)
    ensures PrintItems(items) + [CLOSE_BRACKET] + s == ItemsThen(items, s)
  {
    match items
    case NoItem =>
    case Item(head, rest) =>
      var tail := if rest.NoItem? then [] else [COMMA] + PrintItems(rest);
      Regrouped(Print(head), tail, [CLOSE_BRACKET]);
      Regrouped(Print(head), tail + [CLOSE_BRACKET], s);
      PrintIs(head, tail + [CLOSE_BRACKET] + s);
      if rest.Item? {
        ItemsIs(rest, s);
        assert [COMMA] + PrintItems(rest) + [CLOSE_BRACKET] + s == [COMMA] + (PrintItems(rest) + [CLOSE_BRACKET] + s);
      } else {
        assert tail + [CLOSE_BRACKET] + s == [CLOSE_BRACKET] + s;
      }
  }

  lemma {:induction false} MembersIs(m: Members, s: Text)
    ensures PrintMembers(m) + [CLOSE_BRACE] + s == MembersThen(m, s)
  {
    match m
    case NoMember =>
    case Member(key, value, rest) =>
      var tail := if rest.NoMember? then [] else [COMMA] + PrintMembers(rest);
      var after := tail + [CLOSE_BRACE] + s;
      if rest.Member? {
        MembersIs(rest, s);
        assert after == [COMMA] + (PrintMembers(rest) + [CLOSE_BRACE] + s);
      } else {
        assert after == [CLOSE_BRACE] + s;
      }
      PrintIs(value, after);
      QuotedIs(key, [COLON] + PrintThen(value, after));
      hide *;
      MemberRegrouped(EscapeAll(key), Print(value), tail, s);
  }

  lemma MemberRegrouped(key: Text, value: Text, tail: Text, s: Text)
    ensures [QUOTE] + key + [QUOTE] + [COLON] + value + tail + [CLOSE_BRACE] + s
      == [QUOTE] + (key + [QUOTE] + ([COLON] + (value + (tail + [CLOSE_BRACE] + s))))
  {
  }

  /** The first unit of a text tells what kind of value it prints, and is never a closing bracket. */
  lemma FirstPrinted(v: Json, s: Text)
    ensures PrintThen(v, s) != []
    ensures var u := PrintThen(v, s)[0];
      && (u == 110 <==> v.Null?) && (u == 116 <==> v == Bool(true)) && (u == 102 <==> v == Bool(false))
      && (u == MINUS <==> v.Number? && v.n < 0) && (IsDigit(u) <==> v.Number? && v.n >= 0)
      && (u == QUOTE <==> v.String?) && (u == OPEN_BRACKET <==> v.Array?) && (u == OPEN_BRACE <==> v.Object?)
      && u != CLOSE_BRACKET && u != CLOSE_BRACE
  {
  }

  lemma NumberUnique(m: int, n: int, s: Text, t: Text)
    requires Print(Number(m)) + s == Print(Number(n)) + t && Delimited(s) && Delimited(t) && (m < 0 <==> n < 0)
    ensures m == n && s == t
  {
    if m < 0 {
      assert Print(Number(m)) + s == [MINUS] + (Digits(-m) + s) && Print(Number(n)) + t == [MINUS] + (Digits(-n) + t);
      TextTails([MINUS], [MINUS], Digits(-m) + s, Digits(-n) + t);
      DigitsUnique(-m, -n, s, t);
    } else {
      DigitsUnique(m, n, s, t);
    }
  }

  /** A printed value says where it ends, and which value it is. */
  lemma {:induction false} PrintUnique(v: Json, w: Json, s: Text, t: Text)
    requires PrintThen(v, s) == PrintThen(w, t) && Delimited(s) && Delimited(t)
    ensures v == w && s == t
  {
    FirstPrinted(v, s);
    FirstPrinted(w, t);
    match v
    case String(a) =>
      TextTails([QUOTE], [QUOTE], QuotedThen(a, s), QuotedThen(w.text, t));
      QuotedUnique(a, w.text, s, t);
    case Array(a) =>
      TextTails([OPEN_BRACKET], [OPEN_BRACKET], ItemsThen(a, s), ItemsThen(w.items, t));
      ItemsUnique(a, w.items, s, t);
    case Object(a) =>
      TextTails([OPEN_BRACE], [OPEN_BRACE], MembersThen(a, s), MembersThen(w.members, t));
      MembersUnique(a, w.members, s, t);
    case Number(n) => NumberUnique(n, w.n, s, t);
    case _ => TextTails(Print(v), Print(w), s, t);
  }

  lemma {:induction false} ItemsUnique(a: Items, b: Items, s: Text, t: Text)
    requires ItemsThen(a, s) == ItemsThen(b, t)
    ensures a == b && s == t
  {
    var afterA := if a.NoItem? || a.rest.NoItem? then [CLOSE_BRACKET] + s else [COMMA] + ItemsThen(a.rest, s);
    var afterB := if b.NoItem? || b.rest.NoItem? then [CLOSE_BRACKET] + t else [COMMA] + ItemsThen(b.rest, t);
    if a.Item? { FirstPrinted(a.head, afterA); }
    if b.Item? { FirstPrinted(b.head, afterB); }
    assert a.NoItem? <==> b.NoItem?;
    if a.Item? {
      PrintUnique(a.head, b.head, afterA, afterB);
      if a.rest.Item? {
        TextTails([COMMA], [COMMA], ItemsThen(a.rest, s), ItemsThen(b.rest, t));
        ItemsUnique(a.rest, b.rest, s, t);
        return;
      }
    }
    TextTails([CLOSE_BRACKET], [CLOSE_BRACKET], s, t);
  }

  lemma {:induction false} MembersUnique(a: Members, b: Members, s: Text, t: Text)
    requires MembersThen(a, s) == MembersThen(b, t)
    ensures a == b && s == t
  {
    assert a.NoMember? <==> MembersThen(a, s)[0] == CLOSE_BRACE;
    assert b.NoMember? <==> MembersThen(b, t)[0] == CLOSE_BRACE;
    if a.Member? {
      var afterA := if a.rest.NoMember? then [CLOSE_BRACE] + s else [COMMA] + MembersThen(a.rest, s);
      var afterB := if b.rest.NoMember? then [CLOSE_BRACE] + t else [COMMA] + MembersThen(b.rest, t);
      TextTails([QUOTE], [QUOTE], QuotedThen(a.key, [COLON] + PrintThen(a.value, afterA)), QuotedThen(b.key, [COLON] + PrintThen(b.value, afterB)));
      QuotedUnique(a.key, b.key, [COLON] + PrintThen(a.value, afterA), [COLON] + PrintThen(b.value, afterB));
      TextTails([COLON], [COLON], PrintThen(a.value, afterA), PrintThen(b.value, afterB));
      PrintUnique(a.value, b.value, afterA, afterB);
      if a.rest.Member? {
        TextTails([COMMA], [COMMA], MembersThen(a.rest, s), MembersThen(b.rest, t));
        MembersUnique(a.rest, b.rest, s, t);
        return;
      }
    }
    TextTails([CLOSE_BRACE], [CLOSE_BRACE], s, t);
  }

  /** Two values print the same canonical text exactly when they are equal with objects read as maps, whatever the key order. */
  lemma CanonicalDecides(v: Json, w: Json)
    requires WellFormed(v) && WellFormed(w)
    ensures Canonical(v) == Canonical(w) <==> Same(v, w)
  {
    NormalDecides(v, w);
    if Canonical(v) == Canonical(w) {
      PrintIs(Normal(v), []);
      PrintIs(Normal(w), []);
      PrintUnique(Normal(v), Normal(w), [], []);
    }
  }

  /** The canonical text is one line: it never contains a raw newline or carriage return. */
  lemma {:induction false} PrintedOnOneLine(v: Json)
    ensures NEWLINE !in Print(v) && RETURN !in Print(v)
  {
    match v
    case String(t) => EscapedOnOneLine(t);
    case Array(items) => ItemsOnOneLine(items);
    case Object(members) => MembersOnOneLine(members);
    case _ =>
  }

  lemma {:induction false} EscapedOnOneLine(t: Text)
    ensures NEWLINE !in EscapeAll(t) && RETURN !in EscapeAll(t)
    decreases |t|
  {
    if t != [] {
      EscapedOnOneLine(if StartsPair(t) then t[2..] else t[1..]);
    }
  }

  lemma {:induction false} ItemsOnOneLine(items: Items)
    ensures NEWLINE !in PrintItems(items) && RETURN !in PrintItems(items)
  {
    if items.Item? {
      PrintedOnOneLine(items.head);
      ItemsOnOneLine(items.rest);
    }
  }

  lemma {:induction false} MembersOnOneLine(m: Members)
    ensures NEWLINE !in PrintMembers(m) && RETURN !in PrintMembers(m)
  {
    if m.Member? {
      EscapedOnOneLine(m.key);
      PrintedOnOneLine(m.value);
      MembersOnOneLine(m.rest);
    }
  }
}
