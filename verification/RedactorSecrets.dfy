/** What the redactor hides and what it lets through, said of the characters themselves. */
module RedactorSecrets {
  import opened Options
  import opened Redactor

  /** The same character up to letter case; d is not a capital. */
  predicate SameLetter(c: char, d: char) { c == d || ('a' <= d <= 'z' && c as int == d as int - 32) }

  /** The text ends in this word, in any letter case. */
  ghost predicate Ends(s: string, word: string) {
    |word| <= |s| && forall k :: 0 <= k < |word| ==> SameLetter(s[|s| - |word| + k], word[k])
  }

  /** No word of the table ends anywhere in the text. */
  ghost predicate Clear(tb: Table, s: string) { forall e, p :: 0 <= e <= |s| && p in tb.Patterns() ==> !Ends(s[..e], p) }

  /** Characters that a key is made of. */
  predicate KeyCharacter(c: char) {
    'a' <= c <= 'z' || 'A' <= c <= 'Z' || '0' <= c <= '9' || c == '_' || c == '.' || c == '-'
  }

  /** White space as JavaScript's \\s has it, by code point. */
  predicate WhiteSpace(c: char) {
    var n := c as int;
    9 <= n <= 13 || n == 32 || n == 160 || n == 5760 || 8192 <= n <= 8202 || n == 8232 || n == 8233 || n == 8239 || n == 8287 || n == 12288 || n == 65279
  }

  /** What belongs to the secret behind this word: anything up to white space behind the
      authorization scheme, key characters behind a key prefix. */
  predicate Secret(tb: Table, word: string, c: char) { if word == tb.bearer then !WhiteSpace(c) else KeyCharacter(c) }

  // ---------------------------------------------------------------- the machine's own notions

  lemma EndsSame(tb: Table, s: string, p: string)
    requires p in tb.Patterns()
    ensures EndsWith(s, p) <==> Ends(s, p)
  {
    assert Plain(p);
    if |p| <= |s| {
      var tail := Lower(s)[|s| - |p|..];
      forall k | 0 <= k < |p| ensures tail[k] == p[k] <==> SameLetter(s[|s| - |p| + k], p[k]) {
        assert tail[k] == LowerChar(s[|s| - |p| + k]);
      }
      if forall k :: 0 <= k < |p| ==> tail[k] == p[k] { assert tail == p; }
    }
  }

  lemma SwallowsSecret(tb: Table, word: string, c: char)
    ensures Swallows(tb, word, c) <==> Secret(tb, word, c)
  {
  }

  lemma ClearIsNoHit(tb: Table, s: string)
    ensures Clear(tb, s) <==> NoHit(tb, s)
  {
    hide EndsWith, Ends;
    forall e, p | 0 <= e <= |s| && p in tb.Patterns() ensures EndsWith(s[..e], p) <==> Ends(s[..e], p) { EndsSame(tb, s[..e], p); }
    if NoHit(tb, s) {
      forall e, p | 0 <= e <= |s| && p in tb.Patterns() ensures !Ends(s[..e], p) { assert MatchAt(tb, s[..e]).None?; }
    }
    if Clear(tb, s) {
      forall e | 0 <= e <= |s| ensures MatchAt(tb, s[..e]).None? {
        assert MatchAt(tb, s[..e]).Some? ==> EndsWith(s[..e], MatchAt(tb, s[..e]).value);
      }
    }
  }

  lemma {:induction false} SkipSecret(tb: Table, word: string, s: string, y: string)
    requires (forall k :: 0 <= k < |s| ==> Secret(tb, word, s[k])) && (y != "" ==> !Secret(tb, word, y[0]))
    ensures Skip(tb, word, s + y) == y
  {
    hide Secret, Swallows;
    if s == "" {
      assert s + y == y;
      if y != "" { SwallowsSecret(tb, word, y[0]); }
    } else {
      SwallowsSecret(tb, word, s[0]);
      assert (s + y)[1..] == s[1..] + y;
      SkipSecret(tb, word, s[1..], y);
    }
  }

  // ---------------------------------------------------------------- main results

  /** Text in which no word of the table occurs goes through unchanged. */
  lemma PlainTextPasses(tb: Table, text: string)
    requires Clear(tb, text)
    ensures Redact(tb, text) == text
  {
    hide Clear, Redact;
    ClearIsNoHit(tb, text);
    RedactQuiet(tb, text);
  }

  /** z is text that ends in this word, in any letter case, and in no other word of the table
      there or before. */
  ghost predicate FirstWord(tb: Table, z: string, word: string) {
    && z != "" && word in tb.Patterns() && Ends(z, word)
    && Clear(tb, z[..|z| - 1])
    && forall q :: q in tb.Patterns() && q != word ==> !Ends(z, q)
  }

  lemma FirstWordHits(tb: Table, z: string, word: string)
    requires FirstWord(tb, z, word)
    ensures MatchAt(tb, z) == Some(word) && NoHit(tb, z[..|z| - 1])
  {
    hide EndsWith, Ends, Clear, NoHit;
    ClearIsNoHit(tb, z[..|z| - 1]);
    forall q | q in tb.Patterns() ensures EndsWith(z, q) <==> Ends(z, q) { EndsSame(tb, z, q); }
  }

  /** Behind the first word the whole secret disappears, whatever it is and however long: the
      output is the text before the word, the mask, and what becomes of the text after the
      secret. */
  lemma SecretIsHidden(tb: Table, z: string, word: string, secret: string, rest: string)
    requires FirstWord(tb, z, word)
    requires forall k :: 0 <= k < |secret| ==> Secret(tb, word, secret[k])
    requires rest != "" ==> !Secret(tb, word, rest[0])
    ensures Redact(tb, z + secret + rest) == z[..|z| - |word|] + Veil(tb, word) + Redact(tb, rest)
  {
    FirstWordHits(tb, z, word);
    SkipSecret(tb, word, secret, rest);
    SameVeil(tb, word);
    Regrouped(z, secret, rest);
    hide FirstWord, NoHit, MatchAt, Redact, Skip, Secret, Veil, Mask;
    RedactAtHit(tb, z, secret + rest, word);
  }

  /** What is written in place of word and secret. */
  function Veil(tb: Table, word: string): string { if word == tb.bearer then "Bearer ***" else "***" }

  lemma SameVeil(tb: Table, word: string)
    ensures Mask(tb, word) == Veil(tb, word)
  {
  }

  lemma Regrouped(a: string, b: string, c: string)
    ensures a + b + c == a + (b + c)
  {
  }

  /** So the output does not depend on the secret, for any way of cutting the input. */
  lemma OutputIgnoresSecret(tb: Table, z: string, word: string, s: string, t: string, rest: string, chunks: seq<string>, others: seq<string>)
    requires FirstWord(tb, z, word) && (rest != "" ==> !Secret(tb, word, rest[0]))
    requires (forall k :: 0 <= k < |s| ==> Secret(tb, word, s[k])) && (forall k :: 0 <= k < |t| ==> Secret(tb, word, t[k]))
    requires Join(chunks) == z + s + rest && Join(others) == z + t + rest
    ensures Flushed(FeedAll(tb, INIT, chunks)) == Flushed(FeedAll(tb, INIT, others))
  {
    hide FirstWord, Secret, Redact, FeedAll;
    SecretIsHidden(tb, z, word, s, rest);
    SecretIsHidden(tb, z, word, t, rest);
    StreamingEqualsReference(tb, chunks);
    StreamingEqualsReference(tb, others);
  }
}
