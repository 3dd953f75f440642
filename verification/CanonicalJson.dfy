/** Canonical JSON, the text that every action and ledger hash is taken of: objects print
    their keys in code-unit order, strings are escaped as `JSON.stringify` does. */
module CanonicalJson {
  import opened Options

  /** A UTF-16 code unit, as JavaScript strings are made of. */
  type Unit = n: nat | n < 0x1_0000
  type Text = seq<Unit>

  const QUOTE: Unit := 34
  const BACKSLASH: Unit := 92
  const COMMA: Unit := 44
  const COLON: Unit := 58
  const OPEN_LIST: Unit := 91
  const CLOSE_LIST: Unit := 93
  const OPEN_OBJECT: Unit := 123
  const CLOSE_OBJECT: Unit := 125
  const NULL: Text := [110, 117, 108, 108]
  const TRUE: Text := [116, 114, 117, 101]
  const FALSE: Text := [102, 97, 108, 115, 101]

  /** Digits, plus, minus, point, e and E. */
  predicate NumeralUnit(c: Unit) { 48 <= c <= 57 || c == 43 || c == 45 || c == 46 || c == 101 || c == 69 }

  /** A finite number, given by its shortest decimal text. */
  type Numeral = t: Text | t != [] && forall c <- t :: NumeralUnit(c) witness [48]

  /** `Other` stands for what is not JSON data: non-finite numbers, undefined, functions. */
  datatype Value =
    | Null
    | Bool(b: bool)
    | Num(numeral: Numeral)
    | Str(text: Text)
    | Arr(items: seq<Value>)
    | Obj(members: seq<Member>)
    | Other

  /** An object's own properties, in the order they were added. */
  datatype Member = Member(key: Text, value: Value)

  predicate DistinctKeys(ms: seq<Member>) { forall i, j :: 0 <= i < j < |ms| ==> ms[i].key != ms[j].key }

  /** JavaScript objects have distinct keys. */
  predicate Proper(v: Value) {
    match v
    case Arr(items) => forall x <- items :: Proper(x)
    case Obj(ms) => DistinctKeys(ms) && forall m <- ms :: Proper(m.value)
    case _ => true
  }

  predicate IsData(v: Value) {
    match v
    case Arr(items) => forall x <- items :: IsData(x)
    case Obj(ms) => forall m <- ms :: IsData(m.value)
    case Other => false
    case _ => true
  }

  // ---------------------------------------------------------------- key order

  /** Strictly before in code-unit order. */
  predicate Below(a: Text, b: Text) {
    b != [] && (a == [] || a[0] < b[0] || (a[0] == b[0] && Below(a[1..], b[1..])))
  }

  predicate Ascending(ks: seq<Text>) { forall i, j :: 0 <= i < j < |ks| ==> Below(ks[i], ks[j]) }

  function InsertKey(ks: seq<Text>, k: Text): seq<Text> {
    if ks == [] || Below(k, ks[0]) then [k] + ks else [ks[0]] + InsertKey(ks[1..], k)
  }

  /** `Array.prototype.sort` on keys. */
  function SortKeys(ks: seq<Text>): seq<Text> {
    if ks == [] then [] else InsertKey(SortKeys(ks[1..]), ks[0])
  }

  function Keys(ms: seq<Member>): (ks: seq<Text>)
    ensures |ks| == |ms| && forall i :: 0 <= i < |ms| ==> ks[i] == ms[i].key
  {
    seq(|ms|, i requires 0 <= i < |ms| => ms[i].key)
  }

  /** `record[key]` */
  function IndexOf(ms: seq<Member>, k: Text): (i: nat)
    requires k in Keys(ms)
    ensures i < |ms| && ms[i].key == k
  {
    if ms[0].key == k then 0
    else
      assert Keys(ms) == [ms[0].key] + Keys(ms[1..]);
      1 + IndexOf(ms[1..], k)
  }

  lemma {:induction false} BelowTransitive(a: Text, b: Text, c: Text)
    requires Below(a, b) && Below(b, c)
    ensures Below(a, c)
  {
    if a != [] && a[0] == b[0] == c[0] { BelowTransitive(a[1..], b[1..], c[1..]); }
  }

  lemma {:induction false} BelowTotal(a: Text, b: Text)
    ensures a == b || Below(a, b) || Below(b, a)
    ensures !(Below(a, b) && Below(b, a)) && !Below(a, a)
  {
    if a != [] {
      BelowTotal(a[1..], a[1..]);
      if b != [] && a[0] == b[0] {
        BelowTotal(a[1..], b[1..]);
        assert a == [a[0]] + a[1..] && b == [b[0]] + b[1..];
      }
    }
  }

  lemma {:induction false} InsertKeeps(ks: seq<Text>, k: Text)
    ensures forall x :: x in InsertKey(ks, k) <==> x == k || x in ks
    ensures Ascending(ks) && k !in ks ==> Ascending(InsertKey(ks, k))
  {
    if ks != [] && !Below(k, ks[0]) {
      InsertKeeps(ks[1..], k);
      assert ks == [ks[0]] + ks[1..];
      if Ascending(ks) && k !in ks {
        BelowTotal(k, ks[0]);
        var rest := InsertKey(ks[1..], k);
        forall x | x in rest ensures Below(ks[0], x) {}
      }
    } else if Ascending(ks) {
      forall j | 1 <= j < |ks| ensures Below(k, ks[j]) { BelowTransitive(k, ks[0], ks[j]); }
    }
  }

  lemma {:induction false} SortSorts(ks: seq<Text>)
    ensures forall x :: x in SortKeys(ks) <==> x in ks
    ensures (forall i, j :: 0 <= i < j < |ks| ==> ks[i] != ks[j]) ==> Ascending(SortKeys(ks))
  {
    if ks != [] {
      SortSorts(ks[1..]);
      assert ks == [ks[0]] + ks[1..];
      InsertKeeps(SortKeys(ks[1..]), ks[0]);
      if forall i, j :: 0 <= i < j < |ks| ==> ks[i] != ks[j] {
        forall i | 0 <= i < |ks[1..]| ensures ks[1..][i] != ks[0] { assert ks[1..][i] == ks[i + 1]; }
      }
    }
  }

  /** Only one ascending order has a given set of keys. */
  lemma {:induction false} AscendingUnique(a: seq<Text>, b: seq<Text>)
    requires Ascending(a) && Ascending(b) && forall x :: x in a <==> x in b
    ensures a == b
    decreases |a|
  {
    assert b != [] ==> b[0] in a;
    if a != [] {
      assert a[0] in b;
      var i :| 0 <= i < |b| && b[i] == a[0];
      var j :| 0 <= j < |a| && a[j] == b[0];
      BelowTotal(a[0], b[0]);
      assert a[0] == b[0];
      AscendingTail(a);
      AscendingTail(b);
      AscendingUnique(a[1..], b[1..]);
      assert a == [a[0]] + a[1..] && b == [b[0]] + b[1..];
    }
  }

  lemma AscendingTail(a: seq<Text>)
    requires a != [] && Ascending(a)
    ensures Ascending(a[1..]) && forall x :: x in a[1..] <==> x in a && x != a[0]
  {
    forall x ensures x in a[1..] <==> x in a && x != a[0] {
      assert a == [a[0]] + a[1..];
      BelowTotal(a[0], a[0]);
      forall i | 0 <= i < |a[1..]| ensures a[1..][i] != a[0] { assert a[1..][i] == a[i + 1]; }
    }
  }

  // ---------------------------------------------------------------- printing

  predicate High(c: Unit) { 0xD800 <= c < 0xDC00 }
  predicate Low(c: Unit) { 0xDC00 <= c < 0xE000 }

  function Hex(n: nat): Unit
    requires n < 16
  {
    if n < 10 then 48 + n else 87 + n
  }

  function EscapeUnit(c: Unit): Text {
    if c == QUOTE || c == BACKSLASH then [BACKSLASH, c]
    else if c == 8 then [BACKSLASH, 98]
    else if c == 9 then [BACKSLASH, 116]
    else if c == 10 then [BACKSLASH, 110]
    else if c == 12 then [BACKSLASH, 102]
    else if c == 13 then [BACKSLASH, 114]
    else if c < 32 || High(c) || Low(c)
    then [BACKSLASH, 117, Hex(c / 16 / 16 / 16), Hex(c / 16 / 16 % 16), Hex(c / 16 % 16), Hex(c % 16)]
    else [c]
  }

  /** Surrogate pairs stay as they are; lone surrogates are escaped. */
  function Escape(s: Text): Text {
    if s == [] then []
    else if |s| >= 2 && High(s[0]) && Low(s[1]) then s[..2] + Escape(s[2..])
    else EscapeUnit(s[0]) + Escape(s[1..])
  }

  function PrintString(s: Text): Text { [QUOTE] + Escape(s) + [QUOTE] }

  function Print(v: Value): Text
    decreases v, 1, 0
  {
    match v
    case Null => NULL
    case Bool(b) => if b then TRUE else FALSE
    case Num(n) => n
    case Str(s) => PrintString(s)
    case Arr(items) => [OPEN_LIST] + PrintItems(v, 0) + [CLOSE_LIST]
    case Obj(ms) => SortSorts(Keys(ms)); [OPEN_OBJECT] + PrintFields(v, SortKeys(Keys(ms))) + [CLOSE_OBJECT]
    case Other => []
  }

  /** The items from i on, separated by commas. */
  function PrintItems(v: Value, i: nat): Text
    requires v.Arr? && i <= |v.items|
    decreases v, 0, |v.items| - i
  {
    if i == |v.items| then []
    else Print(v.items[i]) + if i + 1 == |v.items| then [] else [COMMA] + PrintItems(v, i + 1)
  }

  function PrintFields(v: Value, ks: seq<Text>): Text
    requires v.Obj? && forall k <- ks :: k in Keys(v.members)
    decreases v, 0, |ks|
  {
    if ks == [] then []
    else
      PrintString(ks[0]) + [COLON] + Print(v.members[IndexOf(v.members, ks[0])].value)
      + if |ks| == 1 then [] else [COMMA] + PrintFields(v, ks[1..])
  }

  /** None where the code throws. */
  function Canonical(v: Value): Option<Text> { if IsData(v) then Some(Print(v)) else None }

  // ---------------------------------------------------------------- reading

  /** A JSON value without regard to the order of keys. */
  datatype Tree =
    | TNull
    | TBool(b: bool)
    | TNum(numeral: Numeral)
    | TStr(text: Text)
    | TArr(items: seq<Tree>)
    | TObj(fields: map<Text, Tree>)
    | TOther

  function Meaning(v: Value): Tree {
    match v
    case Null => TNull
    case Bool(b) => TBool(b)
    case Num(n) => TNum(n)
    case Str(s) => TStr(s)
    case Arr(items) => TArr(seq(|items|, i requires 0 <= i < |items| => Meaning(items[i])))
    case Obj(ms) => TObj(map k | k in Keys(ms) :: Meaning(ms[IndexOf(ms, k)].value))
    case Other => TOther
  }

  function HexValue(c: Unit): Option<nat> {
    if 48 <= c <= 57 then Some(c - 48)
    else if 97 <= c <= 102 then Some(c - 87)
    else if 65 <= c <= 70 then Some(c - 55)
    else None
  }

  /** One character of a string, section 7 of RFC 8259. */
  function ReadUnit(t: Text): (r: Option<(Unit, Text)>)
    requires t != []
    ensures r.Some? ==> |r.value.1| < |t|
  {
    if t[0] < 32 || t[0] == QUOTE then None
    else if t[0] != BACKSLASH then Some((t[0], t[1..]))
    else if |t| < 2 then None
    else
      match t[1]
      case 34 => Some((34, t[2..]))
      case 92 => Some((92, t[2..]))
      case 47 => Some((47, t[2..]))
      case 98 => Some((8, t[2..]))
      case 102 => Some((12, t[2..]))
      case 110 => Some((10, t[2..]))
      case 114 => Some((13, t[2..]))
      case 116 => Some((9, t[2..]))
      case 117 =>
        if |t| < 6 then None
        else
          var a, b, c, d := HexValue(t[2]), HexValue(t[3]), HexValue(t[4]), HexValue(t[5]);
          if a.None? || b.None? || c.None? || d.None? || a.value > 15 || b.value > 15 || c.value > 15 || d.value > 15 then None
          else Some((4096 * a.value + 256 * b.value + 16 * c.value + d.value, t[6..]))
      case _ => None
  }

  /** The rest of a string, after its opening quote. */
  function ReadString(t: Text): (r: Option<(Text, Text)>)
    ensures r.Some? ==> |r.value.1| < |t|
    decreases |t|
  {
    if t == [] then None
    else if t[0] == QUOTE then Some(([], t[1..]))
    else
      var first := ReadUnit(t);
      if first.None? then None
      else
        var rest := ReadString(first.value.1);
        if rest.None? then None else Some(([first.value.0] + rest.value.0, rest.value.1))
  }

  /** Length of the longest prefix made of numeral characters. */
  function NumeralSpan(t: Text): (n: nat)
    ensures n <= |t|
    ensures forall i :: 0 <= i < n ==> NumeralUnit(t[i])
    ensures n < |t| ==> !NumeralUnit(t[n])
  {
    if t == [] || !NumeralUnit(t[0]) then 0 else 1 + NumeralSpan(t[1..])
  }

  function ReadWord(t: Text, word: Text, tree: Tree): Option<(Tree, Text)> {
    if word <= t then Some((tree, t[|word|..])) else None
  }

  function Read(t: Text): (r: Option<(Tree, Text)>)
    ensures r.Some? ==> |r.value.1| < |t|
    decreases |t|, 0
  {
    if t == [] then None
    else if NumeralUnit(t[0]) then
      var n := NumeralSpan(t);
      Some((TNum(t[..n]), t[n..]))
    else if t[0] == QUOTE then
      var s := ReadString(t[1..]);
      if s.None? then None else Some((TStr(s.value.0), s.value.1))
    else if t[0] == OPEN_LIST then
      if |t| >= 2 && t[1] == CLOSE_LIST then Some((TArr([]), t[2..]))
      else
        var xs := ReadItems(t[1..]);
        if xs.None? then None else Some((TArr(xs.value.0), xs.value.1))
    else if t[0] == OPEN_OBJECT then
      if |t| >= 2 && t[1] == CLOSE_OBJECT then Some((TObj(map[]), t[2..]))
      else
        var fs := ReadFields(t[1..]);
        if fs.None? then None else Some((TObj(fs.value.0), fs.value.1))
    else if t[0] == NULL[0] then ReadWord(t, NULL, TNull)
    else if t[0] == TRUE[0] then ReadWord(t, TRUE, TBool(true))
    else ReadWord(t, FALSE, TBool(false))
  }

  function ReadItems(t: Text): (r: Option<(seq<Tree>, Text)>)
    ensures r.Some? ==> |r.value.1| < |t|
    decreases |t|, 1
  {
    var first := Read(t);
    if first.None? || first.value.1 == [] then None
    else
      var x, after := first.value.0, first.value.1;
      if after[0] == CLOSE_LIST then Some(([x], after[1..]))
      else if after[0] != COMMA then None
      else
        var rest := ReadItems(after[1..]);
        if rest.None? then None else Some(([x] + rest.value.0, rest.value.1))
  }

  /** A later field with the same key wins. */
  function ReadFields(t: Text): (r: Option<(map<Text, Tree>, Text)>)
    ensures r.Some? ==> |r.value.1| < |t|
    decreases |t|, 1
  {
    if t == [] || t[0] != QUOTE then None
    else
      var key := ReadString(t[1..]);
      if key.None? || key.value.1 == [] || key.value.1[0] != COLON then None
      else
        var first := Read(key.value.1[1..]);
        if first.None? || first.value.1 == [] then None
        else
          var field, after := map[key.value.0 := first.value.0], first.value.1;
          if after[0] == CLOSE_OBJECT then Some((field, after[1..]))
          else if after[0] != COMMA then None
          else
            var rest := ReadFields(after[1..]);
            if rest.None? then None else Some((field + rest.value.0, rest.value.1))
  }

  // ---------------------------------------------------------------- strings read back

  lemma UnitReadsBack(c: Unit, rest: Text)
    ensures ReadUnit(EscapeUnit(c) + rest) == Some((c, rest))
    ensures EscapeUnit(c)[0] != QUOTE
  {
    var t := EscapeUnit(c) + rest;
    if t[0] == BACKSLASH && t[1] == 117 {
      assert t[2..6] == EscapeUnit(c)[2..];
      assert t[2] == Hex(c / 16 / 16 / 16) && t[3] == Hex(c / 16 / 16 % 16) && t[4] == Hex(c / 16 % 16) && t[5] == Hex(c % 16);
      assert t[6..] == rest;
    } else {
      assert t[|EscapeUnit(c)|..] == rest;
    }
  }

  lemma ReadStringStep(c: Unit, written: Text, tail: Text, s: Text, rest: Text)
    requires written != [] && written[0] != QUOTE && ReadUnit(written + tail) == Some((c, tail))
    requires ReadString(tail) == Some((s, rest))
    ensures ReadString(written + tail) == Some(([c] + s, rest))
  {
    hide ReadUnit;
  }

  lemma RawUnit(c: Unit, tail: Text)
    requires c >= 32 && c != QUOTE && c != BACKSLASH
    ensures ReadUnit([c] + tail) == Some((c, tail))
  {
    assert ([c] + tail)[1..] == tail;
  }

  lemma {:induction false} StringReadsBack(s: Text, rest: Text)
    ensures ReadString(Escape(s) + [QUOTE] + rest) == Some((s, rest))
  {
    hide ReadUnit, EscapeUnit;
    var t := Escape(s) + [QUOTE] + rest;
    if s == [] {
      assert t[1..] == rest;
    } else {
      hide ReadString;
      if |s| >= 2 && High(s[0]) && Low(s[1]) {
        StringReadsBack(s[2..], rest);
        var tail := Escape(s[2..]) + [QUOTE] + rest;
        RawUnit(s[1], tail);
        RawUnit(s[0], [s[1]] + tail);
        ReadStringStep(s[1], [s[1]], tail, s[2..], rest);
        ReadStringStep(s[0], [s[0]], [s[1]] + tail, [s[1]] + s[2..], rest);
        assert t == [s[0]] + ([s[1]] + tail);
        assert s == [s[0]] + ([s[1]] + s[2..]);
      } else {
        StringReadsBack(s[1..], rest);
        var tail := Escape(s[1..]) + [QUOTE] + rest;
        UnitReadsBack(s[0], tail);
        ReadStringStep(s[0], EscapeUnit(s[0]), tail, s[1..], rest);
        assert t == EscapeUnit(s[0]) + tail;
        assert s == [s[0]] + s[1..];
      }
    }
  }

  // ---------------------------------------------------------------- one step of the reader

  lemma ReadText(inner: Text, s: Text, rest: Text)
    requires ReadString(inner) == Some((s, rest))
    ensures Read([QUOTE] + inner) == Some((TStr(s), rest))
  {
    hide ReadString;
    assert ([QUOTE] + inner)[1..] == inner;
  }

  lemma ReadList(inner: Text, xs: seq<Tree>, rest: Text)
    requires inner != [] && inner[0] != CLOSE_LIST && ReadItems(inner) == Some((xs, rest))
    ensures Read([OPEN_LIST] + inner) == Some((TArr(xs), rest))
  {
    hide ReadItems;
    assert ([OPEN_LIST] + inner)[1..] == inner;
  }

  lemma ReadObject(inner: Text, fs: map<Text, Tree>, rest: Text)
    requires inner != [] && inner[0] != CLOSE_OBJECT && ReadFields(inner) == Some((fs, rest))
    ensures Read([OPEN_OBJECT] + inner) == Some((TObj(fs), rest))
  {
    hide ReadFields;
    assert ([OPEN_OBJECT] + inner)[1..] == inner;
  }

  lemma ReadAtom(v: Value, rest: Text)
    requires v.Null? || v.Bool?
    ensures Read(Print(v) + rest) == Some((Meaning(v), rest))
  {
    var t := Print(v) + rest;
    assert t[..|Print(v)|] == Print(v) && t[|Print(v)|..] == rest;
    assert t[0] == Print(v)[0];
  }

  lemma ReadEmpty(rest: Text)
    ensures Read([OPEN_LIST, CLOSE_LIST] + rest) == Some((TArr([]), rest))
    ensures Read([OPEN_OBJECT, CLOSE_OBJECT] + rest) == Some((TObj(map[]), rest))
  {
    assert ([OPEN_LIST, CLOSE_LIST] + rest)[2..] == rest;
    assert ([OPEN_OBJECT, CLOSE_OBJECT] + rest)[2..] == rest;
  }

  lemma LastItem(t: Text, x: Tree, rest: Text)
    requires Read(t) == Some((x, [CLOSE_LIST] + rest))
    ensures ReadItems(t) == Some(([x], rest))
  {
    hide Read;
    assert ([CLOSE_LIST] + rest)[1..] == rest;
  }

  lemma MoreItems(t: Text, x: Tree, inner: Text, xs: seq<Tree>, rest: Text)
    requires Read(t) == Some((x, [COMMA] + inner)) && ReadItems(inner) == Some((xs, rest))
    ensures ReadItems(t) == Some(([x] + xs, rest))
  {
    hide Read;
    assert ([COMMA] + inner)[1..] == inner;
  }

  lemma LastField(key: Text, body: Text, x: Tree, rest: Text)
    requires Read(body) == Some((x, [CLOSE_OBJECT] + rest))
    ensures ReadFields(PrintString(key) + [COLON] + body) == Some((map[key := x], rest))
  {
    hide Read, ReadString, Escape;
    FieldKey(key, body);
    assert ([CLOSE_OBJECT] + rest)[1..] == rest;
    assert ([COLON] + body)[1..] == body;
  }

  lemma MoreFields(key: Text, body: Text, x: Tree, inner: Text, fs: map<Text, Tree>, rest: Text)
    requires Read(body) == Some((x, [COMMA] + inner)) && ReadFields(inner) == Some((fs, rest))
    ensures ReadFields(PrintString(key) + [COLON] + body) == Some((map[key := x] + fs, rest))
  {
    hide Read, ReadString, Escape;
    FieldKey(key, body);
    assert ([COMMA] + inner)[1..] == inner;
    assert ([COLON] + body)[1..] == body;
  }

  lemma FieldKey(key: Text, body: Text)
    ensures var t := PrintString(key) + [COLON] + body;
      t[0] == QUOTE && ReadString(t[1..]) == Some((key, [COLON] + body))
  {
    hide ReadString, Escape;
    var t := PrintString(key) + [COLON] + body;
    StringReadsBack(key, [COLON] + body);
    assert t[1..] == Escape(key) + [QUOTE] + ([COLON] + body);
  }

  // ---------------------------------------------------------------- values read back

  /** A number's text must not run on into what follows it. */
  predicate Delimited(v: Value, rest: Text) { v.Num? && rest != [] ==> !NumeralUnit(rest[0]) }

  lemma NumeralReadsBack(n: Numeral, rest: Text)
    ensures rest != [] && NumeralUnit(rest[0]) ==> NumeralSpan(n + rest) > |n|
    ensures !(rest != [] && NumeralUnit(rest[0])) ==> Read(n + rest) == Some((TNum(n), rest))
  {
    var t, span := n + rest, NumeralSpan(n + rest);
    assert forall i :: 0 <= i < |n| ==> t[i] in n;
    assert rest != [] ==> t[|n|] == rest[0];
    assert t[..|n|] == n && t[|n|..] == rest;
  }

  /** No value's text starts with a closing bracket, so an empty list is told from others. */
  lemma FirstUnit(v: Value)
    requires IsData(v)
    ensures Print(v) != [] && Print(v)[0] != CLOSE_LIST
  {
    assert v.Num? ==> v.numeral[0] in v.numeral;
  }

  /** The reader recovers the value and the remaining text. */
  lemma {:induction false} ReadsBack(v: Value, rest: Text)
    requires Proper(v) && IsData(v) && Delimited(v, rest)
    ensures Read(Print(v) + rest) == Some((Meaning(v), rest))
    decreases v, 1, 0
  {
    hide Read, ReadItems, ReadString, Escape, PrintItems, PrintFields, SortKeys;
    match v
    case Null => ReadAtom(v, rest);
    case Bool(_) => ReadAtom(v, rest);
    case Num(n) => NumeralReadsBack(n, rest);
    case Str(s) =>
      StringReadsBack(s, rest);
      ReadText(Escape(s) + [QUOTE] + rest, s, rest);
      assert Print(v) + rest == [QUOTE] + (Escape(s) + [QUOTE] + rest);
    case Arr(_) => ListReadsBack(v, rest);
    case Obj(_) => ObjectReadsBack(v, rest);
  }

  lemma {:induction false} ListReadsBack(v: Value, rest: Text)
    requires Proper(v) && IsData(v) && v.Arr?
    ensures Read(Print(v) + rest) == Some((Meaning(v), rest))
    decreases v, 0, |v.items| + 1
  {
    hide Read, ReadItems;
    if v.items == [] {
      ReadEmpty(rest);
      assert Print(v) + rest == [OPEN_LIST, CLOSE_LIST] + rest;
      assert Meaning(v).items == [];
    } else {
      ItemsReadBack(v, 0, rest);
      FirstUnit(v.items[0]);
      var inner := PrintItems(v, 0) + [CLOSE_LIST] + rest;
      ReadList(inner, Meaning(v).items[0..], rest);
      assert Meaning(v).items[0..] == Meaning(v).items;
      assert Print(v) + rest == [OPEN_LIST] + inner;
    }
  }

  lemma {:induction false} ItemsReadBack(v: Value, i: nat, rest: Text)
    requires Proper(v) && IsData(v) && v.Arr? && i < |v.items|
    ensures ReadItems(PrintItems(v, i) + [CLOSE_LIST] + rest) == Some((Meaning(v).items[i..], rest))
    decreases v, 0, |v.items| - i
  {
    hide Read, ReadItems, Print;
    var t := PrintItems(v, i) + [CLOSE_LIST] + rest;
    var x := v.items[i];
    if i + 1 == |v.items| {
      ReadsBack(x, [CLOSE_LIST] + rest);
      assert t == Print(x) + ([CLOSE_LIST] + rest);
      LastItem(t, Meaning(x), rest);
      assert Meaning(v).items[i..] == [Meaning(x)];
    } else {
      var inner := PrintItems(v, i + 1) + [CLOSE_LIST] + rest;
      ReadsBack(x, [COMMA] + inner);
      ItemsReadBack(v, i + 1, rest);
      assert t == Print(x) + ([COMMA] + inner);
      MoreItems(t, Meaning(x), inner, Meaning(v).items[i + 1..], rest);
      assert Meaning(v).items[i..] == [Meaning(x)] + Meaning(v).items[i + 1..];
    }
  }

  lemma ObjectText(v: Value, ks: seq<Text>, rest: Text)
    requires v.Obj? && ks == SortKeys(Keys(v.members)) && forall k <- ks :: k in Keys(v.members)
    ensures Print(v) + rest == [OPEN_OBJECT] + (PrintFields(v, ks) + [CLOSE_OBJECT] + rest)
    ensures ks == [] ==> Print(v) + rest == [OPEN_OBJECT, CLOSE_OBJECT] + rest
    ensures ks != [] ==> PrintFields(v, ks) != [] && PrintFields(v, ks)[0] == QUOTE
  {
    hide SortKeys, Keys, IndexOf, Escape;
  }

  lemma AllChosen(v: Value, ks: seq<Text>)
    requires v.Obj? && forall k :: k in ks <==> k in Keys(v.members)
    ensures TObj(Chosen(v, ks)) == Meaning(v) && (ks == [] ==> Meaning(v) == TObj(map[]))
  {
    hide Keys, IndexOf;
    assert Chosen(v, ks) == Meaning(v).fields;
  }

  lemma {:induction false} ObjectReadsBack(v: Value, rest: Text)
    requires Proper(v) && IsData(v) && v.Obj?
    ensures Read(Print(v) + rest) == Some((Meaning(v), rest))
    decreases v, 0, |v.members| + 1
  {
    hide Read, ReadFields, SortKeys, Keys, Ascending, IndexOf, Print, PrintFields;
    var ks := SortKeys(Keys(v.members));
    SortSorts(Keys(v.members));
    SortLength(Keys(v.members));
    AllChosen(v, ks);
    hide Chosen, Meaning;
    if ks == [] {
      ReadEmpty(rest);
      ObjectText(v, ks, rest);
    } else {
      FieldsReadBack(v, ks, rest);
      var inner := PrintFields(v, ks) + [CLOSE_OBJECT] + rest;
      ObjectText(v, ks, rest);
      ReadObject(inner, Chosen(v, ks), rest);
    }
  }

  lemma {:induction false} SortLength(ks: seq<Text>)
    ensures |SortKeys(ks)| == |ks|
  {
    if ks != [] { SortLength(ks[1..]); InsertLength(SortKeys(ks[1..]), ks[0]); }
  }

  lemma {:induction false} InsertLength(ks: seq<Text>, k: Text)
    ensures |InsertKey(ks, k)| == |ks| + 1
  {
    if ks != [] && !Below(k, ks[0]) { InsertLength(ks[1..], k); }
  }

  /** The fields of v whose keys are listed. */
  function Chosen(v: Value, ks: seq<Text>): map<Text, Tree>
    requires v.Obj? && forall k <- ks :: k in Keys(v.members)
  {
    map k | k in ks :: Meaning(v.members[IndexOf(v.members, k)].value)
  }

  lemma ChosenSplits(v: Value, ks: seq<Text>)
    requires v.Obj? && ks != [] && forall k <- ks :: k in Keys(v.members)
    ensures var first := map[ks[0] := Meaning(v.members[IndexOf(v.members, ks[0])].value)];
      Chosen(v, ks) == if |ks| == 1 then first else first + Chosen(v, ks[1..])
  {
    hide Meaning, Keys, IndexOf;
    assert ks == [ks[0]] + ks[1..];
  }

  lemma FieldsText(v: Value, ks: seq<Text>, rest: Text)
    requires v.Obj? && ks != [] && forall k <- ks :: k in Keys(v.members)
    ensures var x := v.members[IndexOf(v.members, ks[0])].value;
      PrintFields(v, ks) + [CLOSE_OBJECT] + rest == PrintString(ks[0]) + [COLON] + (Print(x)
        + if |ks| == 1 then [CLOSE_OBJECT] + rest else [COMMA] + (PrintFields(v, ks[1..]) + [CLOSE_OBJECT] + rest))
  {
    hide Print, PrintString, Keys, IndexOf;
  }

  lemma {:induction false} FieldsReadBack(v: Value, ks: seq<Text>, rest: Text)
    requires Proper(v) && IsData(v) && v.Obj? && ks != [] && |ks| <= |v.members|
    requires forall k <- ks :: k in Keys(v.members)
    ensures ReadFields(PrintFields(v, ks) + [CLOSE_OBJECT] + rest) == Some((Chosen(v, ks), rest))
    decreases v, 0, |ks|
  {
    hide Read, ReadFields, PrintString, Print, PrintFields, Meaning, Chosen, Keys, IndexOf;
    FieldsText(v, ks, rest);
    ChosenSplits(v, ks);
    var m := v.members[IndexOf(v.members, ks[0])];
    assert m in v.members;
    if |ks| == 1 {
      var tail := [CLOSE_OBJECT] + rest;
      ReadsBack(m.value, tail);
      LastField(ks[0], Print(m.value) + tail, Meaning(m.value), rest);
    } else {
      var inner := PrintFields(v, ks[1..]) + [CLOSE_OBJECT] + rest;
      var tail := [COMMA] + inner;
      ReadsBack(m.value, tail);
      FieldsReadBack(v, ks[1..], rest);
      MoreFields(ks[0], Print(m.value) + tail, Meaning(m.value), inner, Chosen(v, ks[1..]), rest);
    }
  }

  /** Unique decoding, and exactly when: the only way to misread is a number followed by a
      character that continues it. */
  lemma UniquelyDecodable(v: Value, rest: Text)
    requires Proper(v) && IsData(v)
    ensures Read(Print(v) + rest) == Some((Meaning(v), rest)) <==> Delimited(v, rest)
  {
    if Delimited(v, rest) {
      ReadsBack(v, rest);
    } else {
      NumeralReadsBack(v.numeral, rest);
      var t := v.numeral + rest;
      assert t[0] in v.numeral;
    }
  }

  // ---------------------------------------------------------------- same text, same value

  lemma {:induction false} SameMeaningSameText(v: Value, w: Value)
    requires Proper(v) && Proper(w) && Meaning(v) == Meaning(w)
    ensures Print(v) == Print(w) && IsData(v) == IsData(w)
    decreases v, 1, 0
  {
    match v
    case Arr(items) =>
      forall i | 0 <= i < |items| ensures Print(items[i]) == Print(w.items[i]) && IsData(items[i]) == IsData(w.items[i]) {
        assert Meaning(v).items[i] == Meaning(w).items[i];
        SameMeaningSameText(items[i], w.items[i]);
      }
      SameItems(v, w, 0);
    case Obj(ms) =>
      var ks, ls := Keys(ms), Keys(w.members);
      forall k ensures k in ks <==> k in ls { assert k in ks <==> k in Meaning(v).fields; assert k in ls <==> k in Meaning(w).fields; }
      SortSorts(ks);
      SortSorts(ls);
      AscendingUnique(SortKeys(ks), SortKeys(ls));
      forall k | k in ks ensures SameField(v, w, k) {
        var a, b := ms[IndexOf(ms, k)], w.members[IndexOf(w.members, k)];
        assert Meaning(v).fields[k] == Meaning(w).fields[k];
        assert a in ms && b in w.members;
        SameMeaningSameText(a.value, b.value);
      }
      SameFields(v, w, SortKeys(ks));
      SameData(v, w);
    case _ =>
  }

  ghost predicate SameField(v: Value, w: Value, k: Text)
    requires v.Obj? && w.Obj?
  {
    && k in Keys(v.members) && k in Keys(w.members)
    && var x, y := v.members[IndexOf(v.members, k)].value, w.members[IndexOf(w.members, k)].value;
      Print(x) == Print(y) && IsData(x) == IsData(y)
  }

  lemma {:induction false} SameItems(v: Value, w: Value, i: nat)
    requires v.Arr? && w.Arr? && |v.items| == |w.items| && i <= |v.items|
    requires forall j :: 0 <= j < |v.items| ==> Print(v.items[j]) == Print(w.items[j])
    ensures PrintItems(v, i) == PrintItems(w, i)
    decreases |v.items| - i
  {
    if i < |v.items| { SameItems(v, w, i + 1); }
  }

  lemma {:induction false} SameFields(v: Value, w: Value, ks: seq<Text>)
    requires v.Obj? && w.Obj? && forall k <- ks :: SameField(v, w, k)
    ensures forall k <- ks :: k in Keys(v.members) && k in Keys(w.members)
    ensures PrintFields(v, ks) == PrintFields(w, ks)
  {
    if ks != [] { SameFields(v, w, ks[1..]); assert SameField(v, w, ks[0]); }
  }

  lemma KeyAt(ms: seq<Member>, i: nat)
    requires DistinctKeys(ms) && i < |ms|
    ensures ms[i].key in Keys(ms) && IndexOf(ms, ms[i].key) == i
  {
    assert Keys(ms)[i] == ms[i].key;
  }

  lemma SameData(v: Value, w: Value)
    requires v.Obj? && w.Obj? && DistinctKeys(v.members) && DistinctKeys(w.members)
    requires forall k :: k in Keys(v.members) <==> k in Keys(w.members)
    requires forall k <- Keys(v.members) :: SameField(v, w, k)
    ensures IsData(v) == IsData(w)
  {
    forall i | 0 <= i < |v.members| ensures IsData(w) ==> IsData(v.members[i].value) {
      KeyAt(v.members, i);
      assert SameField(v, w, v.members[i].key);
    }
    forall i | 0 <= i < |w.members| ensures IsData(v) ==> IsData(w.members[i].value) {
      KeyAt(w.members, i);
      assert SameField(v, w, w.members[i].key);
    }
  }

  /** Two values have the same canonical text exactly when they are equal up to key order. */
  lemma SameTextIffSameMeaning(v: Value, w: Value)
    requires Proper(v) && Proper(w) && IsData(v) && IsData(w)
    ensures Canonical(v) == Canonical(w) <==> Meaning(v) == Meaning(w)
  {
    if Meaning(v) == Meaning(w) {
      SameMeaningSameText(v, w);
    } else {
      ReadsBack(v, []);
      ReadsBack(w, []);
      assert Print(v) + [] == Print(v) && Print(w) + [] == Print(w);
    }
  }

  /** Adding the same properties in another order does not change the text. */
  lemma KeyOrderIsIrrelevant(a: seq<Member>, b: seq<Member>)
    requires Proper(Obj(a)) && Proper(Obj(b)) && multiset(a) == multiset(b)
    ensures Canonical(Obj(a)) == Canonical(Obj(b))
  {
    forall m ensures m in a <==> m in b { assert m in multiset(a) <==> m in multiset(b); }
    SameMembers(a, b);
    SameMembers(b, a);
    SameFieldMaps(a, b);
    hide Print, IsData;
    SameMeaningSameText(Obj(a), Obj(b));
  }

  lemma SameMembers(a: seq<Member>, b: seq<Member>)
    requires DistinctKeys(a) && DistinctKeys(b) && forall m <- a :: m in b
    ensures forall k :: k in Keys(a) ==> k in Keys(b) && b[IndexOf(b, k)] == a[IndexOf(a, k)]
  {
    forall k | k in Keys(a) ensures k in Keys(b) && b[IndexOf(b, k)] == a[IndexOf(a, k)] {
      var m := a[IndexOf(a, k)];
      assert m in a;
      var j :| 0 <= j < |b| && b[j] == m;
      KeyAt(b, j);
    }
  }

  lemma SameFieldMaps(a: seq<Member>, b: seq<Member>)
    requires forall k :: k in Keys(a) <==> k in Keys(b)
    requires forall k :: k in Keys(a) ==> b[IndexOf(b, k)] == a[IndexOf(a, k)]
    ensures Meaning(Obj(a)) == Meaning(Obj(b))
  {
    hide Keys, IndexOf;
    assert Meaning(Obj(a)).fields == Meaning(Obj(b)).fields;
  }

  // ---------------------------------------------------------------- UTF-8 loses nothing

  /** Every surrogate is half of a pair, so encoding as UTF-8 before hashing is lossless. */
  predicate WellFormed(t: Text) {
    t == []
    || (!High(t[0]) && !Low(t[0]) && WellFormed(t[1..]))
    || (|t| >= 2 && High(t[0]) && Low(t[1]) && WellFormed(t[2..]))
  }

  lemma {:induction false} WellFormedConcat(a: Text, b: Text)
    requires WellFormed(a) && WellFormed(b)
    ensures WellFormed(a + b)
  {
    if a == [] {
      assert a + b == b;
    } else if High(a[0]) {
      WellFormedConcat(a[2..], b);
      assert (a + b)[2..] == a[2..] + b;
    } else {
      WellFormedConcat(a[1..], b);
      assert (a + b)[1..] == a[1..] + b;
    }
  }

  lemma {:induction false} PlainIsWellFormed(t: Text)
    requires forall c <- t :: !High(c) && !Low(c)
    ensures WellFormed(t)
  {
    if t != [] { PlainIsWellFormed(t[1..]); }
  }

  lemma {:induction false} EscapeIsWellFormed(s: Text)
    ensures WellFormed(Escape(s))
  {
    if s != [] {
      if |s| >= 2 && High(s[0]) && Low(s[1]) {
        EscapeIsWellFormed(s[2..]);
        assert s[..2][2..] == [];
        WellFormedConcat(s[..2], Escape(s[2..]));
      } else {
        EscapeIsWellFormed(s[1..]);
        PlainIsWellFormed(EscapeUnit(s[0]));
        WellFormedConcat(EscapeUnit(s[0]), Escape(s[1..]));
      }
    }
  }

  lemma StringIsWellFormed(s: Text)
    ensures WellFormed(PrintString(s))
  {
    EscapeIsWellFormed(s);
    PlainIsWellFormed([QUOTE]);
    WellFormedConcat([QUOTE], Escape(s));
    WellFormedConcat([QUOTE] + Escape(s), [QUOTE]);
  }

  lemma {:induction false} PrintIsWellFormed(v: Value)
    ensures WellFormed(Print(v))
    decreases v, 1, 0
  {
    match v
    case Str(s) => StringIsWellFormed(s);
    case Arr(items) =>
      ItemsAreWellFormed(v, 0);
      Bracketed(OPEN_LIST, PrintItems(v, 0), CLOSE_LIST);
    case Obj(ms) =>
      var ks := SortKeys(Keys(ms));
      SortSorts(Keys(ms));
      SortLength(Keys(ms));
      FieldsAreWellFormed(v, ks);
      Bracketed(OPEN_OBJECT, PrintFields(v, ks), CLOSE_OBJECT);
    case _ => PlainIsWellFormed(Print(v));
  }

  lemma Bracketed(open: Unit, t: Text, close: Unit)
    requires WellFormed(t) && !High(open) && !Low(open) && !High(close) && !Low(close)
    ensures WellFormed([open] + t + [close])
  {
    PlainIsWellFormed([open]);
    PlainIsWellFormed([close]);
    WellFormedConcat([open], t);
    WellFormedConcat([open] + t, [close]);
  }

  lemma {:induction false} ItemsAreWellFormed(v: Value, i: nat)
    requires v.Arr? && i <= |v.items|
    ensures WellFormed(PrintItems(v, i))
    decreases v, 0, |v.items| - i
  {
    if i < |v.items| {
      PrintIsWellFormed(v.items[i]);
      if i + 1 < |v.items| {
        ItemsAreWellFormed(v, i + 1);
        PlainIsWellFormed([COMMA]);
        WellFormedConcat([COMMA], PrintItems(v, i + 1));
        WellFormedConcat(Print(v.items[i]), [COMMA] + PrintItems(v, i + 1));
      } else {
        assert PrintItems(v, i) == Print(v.items[i]) + [] == Print(v.items[i]);
      }
    }
  }

  lemma {:induction false} FieldsAreWellFormed(v: Value, ks: seq<Text>)
    requires v.Obj? && |ks| <= |v.members| && forall k <- ks :: k in Keys(v.members)
    ensures WellFormed(PrintFields(v, ks))
    decreases v, 0, |ks|
  {
    if ks != [] {
      var x := v.members[IndexOf(v.members, ks[0])].value;
      PrintIsWellFormed(x);
      StringIsWellFormed(ks[0]);
      PlainIsWellFormed([COLON]);
      WellFormedConcat(PrintString(ks[0]), [COLON]);
      var field := PrintString(ks[0]) + [COLON] + Print(x);
      WellFormedConcat(PrintString(ks[0]) + [COLON], Print(x));
      if |ks| > 1 {
        FieldsAreWellFormed(v, ks[1..]);
        PlainIsWellFormed([COMMA]);
        WellFormedConcat([COMMA], PrintFields(v, ks[1..]));
        WellFormedConcat(field, [COMMA] + PrintFields(v, ks[1..]));
      } else {
        assert PrintFields(v, ks) == field + [] == field;
      }
    }
  }
}
