/** The very text of canonical JSON: its words and marks, its shortest escapes, and the order
    of its keys. */
module JsonText {
  import opened Options
  import opened CanonicalJson

  predicate Spells(t: Text, s: string) { |t| == |s| && forall i :: 0 <= i < |s| ==> t[i] == s[i] as int }

  /** The words and marks are those of JSON. */
  lemma WordsAreJson()
    ensures Spells(NULL, "null") && Spells(TRUE, "true") && Spells(FALSE, "false")
    ensures Spells([OPEN_LIST, COMMA, CLOSE_LIST], "[,]") && Spells([OPEN_OBJECT, COLON, CLOSE_OBJECT], "{:}")
    ensures Spells([QUOTE, BACKSLASH], "\"\\")
  {
  }

  /** Numbers are written with decimal digits, signs, point and exponent mark, nothing else. */
  lemma NumeralsAreDecimal(c: Unit)
    ensures NumeralUnit(c) <==> exists i :: 0 <= i < 15 && "0123456789+-.eE"[i] as int == c
  {
    var s := "0123456789+-.eE";
    assert forall i :: 0 <= i < 10 ==> s[i] as int == 48 + i;
    assert s[10] as int == 43 && s[11] as int == 45 && s[12] as int == 46 && s[13] as int == 101 && s[14] as int == 69;
    if 48 <= c <= 57 { assert s[c - 48] as int == c; }
  }

  // ---------------------------------------------------------------- surrogates

  predicate Lead(c: Unit) { 55_296 <= c <= 56_319 }

  predicate Trail(c: Unit) { 56_320 <= c <= 57_343 }

  /** Every leading surrogate is followed by a trailing one, and every trailing one follows a
      leading one. */
  ghost predicate Paired(t: Text) { forall i :: 0 <= i < |t| ==> PairedAt(t, i) }

  predicate PairedAt(t: Text, i: nat)
    requires i < |t|
  {
    (Lead(t[i]) ==> i + 1 < |t| && Trail(t[i + 1])) && (Trail(t[i]) ==> i > 0 && Lead(t[i - 1]))
  }

  lemma {:induction false} WellFormedIsPaired(t: Text)
    ensures WellFormed(t) <==> Paired(t)
  {
    if t != [] {
      if Lead(t[0]) && |t| >= 2 && Trail(t[1]) {
        WellFormedIsPaired(t[2..]);
        PairedWithout(t, 2);
      } else if !Lead(t[0]) && !Trail(t[0]) {
        WellFormedIsPaired(t[1..]);
        PairedWithout(t, 1);
      } else {
        assert !PairedAt(t, 0);
      }
    }
  }

  /** What is left without a plain unit or a pair in front. */
  lemma PairedWithout(t: Text, n: nat)
    requires (n == 1 && |t| >= 1 && !Lead(t[0]) && !Trail(t[0])) || (n == 2 && |t| >= 2 && Lead(t[0]) && Trail(t[1]))
    ensures Paired(t) <==> Paired(t[n..])
  {
    var u := t[n..];
    forall i | 0 <= i < |u| ensures PairedAt(u, i) <==> PairedAt(t, i + n) { assert u[i] == t[i + n]; }
    if Paired(u) {
      forall i | 0 <= i < |t| ensures PairedAt(t, i) { assert i >= n ==> PairedAt(u, i - n); }
    }
  }

  /** So the text of every value is, whatever lone surrogates it holds. */
  lemma PrintIsPaired(v: Value)
    ensures Paired(Print(v))
  {
    PrintIsWellFormed(v);
    WellFormedIsPaired(Print(v));
  }

  // ---------------------------------------------------------------- key order

  /** Keys are compared at the first code unit where they differ; a proper prefix comes first. */
  lemma {:induction false} BelowIsCodeUnitOrder(a: Text, b: Text)
    ensures Below(a, b) <==> exists i: nat :: DiffersAt(a, b, i)
  {
    if b == [] {
    } else if a == [] {
      assert DiffersAt(a, b, 0);
    } else if a[0] != b[0] {
      assert a[0] < b[0] ==> DiffersAt(a, b, 0);
      forall i: nat | DiffersAt(a, b, i) ensures i == 0 { if i > 0 { SameStart(a, b, i); } }
    } else {
      BelowIsCodeUnitOrder(a[1..], b[1..]);
      forall i: nat ensures DiffersAt(a[1..], b[1..], i) <==> DiffersAt(a, b, i + 1) { DiffersLater(a, b, i); }
      if i: nat :| DiffersAt(a[1..], b[1..], i) { assert DiffersAt(a, b, i + 1); }
      if i: nat :| DiffersAt(a, b, i) {
        assert i != 0;
        assert DiffersAt(a[1..], b[1..], i - 1);
      }
    }
  }

  lemma SameStart(a: Text, b: Text, i: nat)
    requires DiffersAt(a, b, i) && i > 0
    ensures a[0] == b[0]
  {
    assert a[0] == a[..i][0] && b[0] == b[..i][0];
  }

  lemma DiffersLater(a: Text, b: Text, i: nat)
    requires a != [] && b != [] && a[0] == b[0]
    ensures DiffersAt(a[1..], b[1..], i) <==> DiffersAt(a, b, i + 1)
  {
    if i < |a| && i < |b| {
      assert a[..i + 1] == [a[0]] + a[1..][..i] && b[..i + 1] == [b[0]] + b[1..][..i];
      assert a[1..][..i] == a[..i + 1][1..] && b[1..][..i] == b[..i + 1][1..];
    }
  }

  ghost predicate DiffersAt(a: Text, b: Text, i: nat) {
    i <= |a| && i < |b| && a[..i] == b[..i] && (i == |a| || a[i] < b[i])
  }

  // ---------------------------------------------------------------- escapes

  /** One way to write a unit inside a string: no lone surrogate as it is, no capital digits. */
  ghost predicate Writes(t: Text, c: Unit) {
    && t != [] && ReadUnit(t) == Some((c, []))
    && (|t| == 1 ==> !Lead(t[0]) && !Trail(t[0]))
    && forall i :: 2 <= i < |t| ==> !(65 <= t[i] <= 70)
  }

  /** Of all ways to write a unit the printed one is the shortest, and the only one of its length. */
  lemma EscapeIsShortest(c: Unit, t: Text)
    requires Writes(t, c)
    ensures Writes(EscapeUnit(c), c) && (t == EscapeUnit(c) || |t| > |EscapeUnit(c)|)
  {
    hide Writes, EscapeUnit;
    EscapeWrites(c);
    EscapeForms(c);
    OtherForms(c, t);
    if |t| == 2 && Short(c, t[1]) { assert t == [t[0], t[1]] == EscapeUnit(c); }
  }

  lemma EscapeWrites(c: Unit)
    ensures Writes(EscapeUnit(c), c)
  {
    hide ReadUnit;
    UnitReadsBack(c, []);
    assert EscapeUnit(c) + [] == EscapeUnit(c);
  }

  /** The units with a short escape, each with its letter. */
  predicate Short(c: Unit, letter: Unit) {
    || (c == letter && c in {34, 92}) || (c == 8 && letter == 98) || (c == 9 && letter == 116)
    || (c == 10 && letter == 110) || (c == 12 && letter == 102) || (c == 13 && letter == 114)
  }

  ghost predicate Bare(c: Unit) { c >= 32 && c != QUOTE && c != BACKSLASH && !High(c) && !Low(c) }

  ghost predicate Digits(c: Unit, t: Text) {
    t == [BACKSLASH, 117, Hex(c / 16 / 16 / 16), Hex(c / 16 / 16 % 16), Hex(c / 16 % 16), Hex(c % 16)]
  }

  lemma EscapeForms(c: Unit)
    ensures var e := EscapeUnit(c);
      && (Bare(c) ==> e == [c])
      && ((exists l :: Short(c, l)) ==> |e| == 2 && e[0] == BACKSLASH && Short(c, e[1]))
      && (!Bare(c) && (forall l :: !Short(c, l)) ==> Digits(c, e))
  {
    assert Short(34, 34) && Short(92, 92) && Short(8, 98) && Short(9, 116) && Short(10, 110) && Short(12, 102) && Short(13, 114);
  }

  lemma OtherForms(c: Unit, t: Text)
    requires Writes(t, c)
    ensures t != []
    ensures |t| == 1 ==> Bare(c) && t == [c]
    ensures |t| == 2 ==> t[0] == BACKSLASH && (Short(c, t[1]) || (Bare(c) && c == t[1] == 47))
    ensures |t| > 2 ==> Digits(c, t)
  {
    hide Hex, HexValue;
    if t[0] != BACKSLASH {
      assert t[1..] == [] && t == [c];
    } else if t[1] != 117 {
      assert t[2..] == [] && t == [BACKSLASH, t[1]];
    } else {
      LongForm(c, t);
    }
  }

  /** Four lower-case digits name one unit. */
  lemma LongForm(c: Unit, t: Text)
    requires Writes(t, c) && t[0] == BACKSLASH && |t| >= 2 && t[1] == 117
    ensures Digits(c, t)
  {
    assert t[6..] == [];
    var a, b, d, e := HexValue(t[2]).value, HexValue(t[3]).value, HexValue(t[4]).value, HexValue(t[5]).value;
    assert c == 4096 * a + 256 * b + 16 * d + e;
    assert c / 16 == 256 * a + 16 * b + d && c % 16 == e;
    assert c / 16 / 16 == 16 * a + b && c / 16 % 16 == d;
    assert c / 16 / 16 / 16 == a && c / 16 / 16 % 16 == b;
    assert t == [t[0], t[1], t[2], t[3], t[4], t[5]];
  }

  /** Text without quotes, backslashes, control characters and lone surrogates is printed as it
      is, between quotes. */
  lemma PlainTextIsUnescaped(s: Text)
    requires Paired(s) && forall i :: 0 <= i < |s| ==> s[i] >= 32 && s[i] != QUOTE && s[i] != BACKSLASH
    ensures Escape(s) == s
  {
    WellFormedIsPaired(s);
    Unescaped(s);
  }

  lemma {:induction false} Unescaped(s: Text)
    requires WellFormed(s) && forall i :: 0 <= i < |s| ==> s[i] >= 32 && s[i] != QUOTE && s[i] != BACKSLASH
    ensures Escape(s) == s
  {
    if s != [] {
      if High(s[0]) {
        Unescaped(s[2..]);
        assert s == s[..2] + s[2..];
      } else {
        Unescaped(s[1..]);
        assert s == [s[0]] + s[1..];
      }
    }
  }
}
