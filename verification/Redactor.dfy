/** The streaming secret redactor of the egress runner.

    Characters arrive one at a time; the redactor may only emit a character once no
    secret prefix can still be completed through it.  The reference is `Redact`, which
    sees the whole text at once and knows nothing about buffering.
 */
module Redactor {

  import opened Options

  function LowerChar(c: char): char {
    if 'A' <= c <= 'Z' then (c as int + 32) as char else c
  }

  function Lower(s: string): (r: string)
    ensures |r| == |s|
    ensures forall i :: 0 <= i < |s| ==> r[i] == LowerChar(s[i])
  {
    seq(|s|, i requires 0 <= i < |s| => LowerChar(s[i]))
  }

  predicate EndsWith(s: string, p: string) {
    |p| <= |s| && Lower(s)[|s| - |p|..] == p
  }

  /** The first of `ps` that the text ends with, ignoring letter case. */
  function FindSuffix(ps: seq<string>, s: string): (r: Option<string>)
    ensures r.Some? ==> r.value in ps && EndsWith(s, r.value)
    ensures r.None? ==> forall p :: p in ps ==> !EndsWith(s, p)
  {
    if ps == [] then None
    else if EndsWith(s, ps[0]) then Some(ps[0])
    else FindSuffix(ps[1..], s)
  }

  /** JavaScript's \s. */
  predicate IsSpace(c: char) {
    || '\t' <= c <= '\r' || c == ' ' || c == '\U{00A0}' || c == '\U{1680}'
    || '\U{2000}' <= c <= '\U{200A}' || c == '\U{2028}' || c == '\U{2029}'
    || c == '\U{202F}' || c == '\U{205F}' || c == '\U{3000}' || c == '\U{FEFF}'
  }

  /** What the closure holds, with everything it has written so far. */
  datatype State = State(out: string, pending: string, redacting: Option<string>)

  const INIT := State("", "", None)

  /** A lower-case pattern of sensible length that cannot overlap the mask. */
  ghost predicate Plain(p: string) {
    0 < |p| <= 11 && forall i :: 0 <= i < |p| ==> p[i] != '*' && !('A' <= p[i] <= 'Z')
  }

  /** Key prefixes and the authorization scheme word. */
  datatype PatternTable = PatternTable(keys: seq<string>, bearer: string) {

    /** In the order in which the code tries them: key prefixes first. */
    function Patterns(): seq<string> { keys + [bearer] }

    ghost predicate Ok() {
      && Lower("Bearer ") == bearer
      && bearer !in keys
      && keys != []
      && (forall p :: p in Patterns() ==> Plain(p))
    }
  }

  const STREAM_SECRETS: PatternTable := PatternTable(
    ["sk_live_", "sk_test_", "rk_live_", "ghp_", "github_pat_", "xoxb-", "sg."], "bearer ")

  lemma StreamSecretsOk()
    ensures STREAM_SECRETS.Ok()
  {
    hide Plain;
    var ps := STREAM_SECRETS.Patterns();
    forall j | 0 <= j < |ps| ensures Plain(ps[j]) && (j < 7 ==> ps[j] != "bearer ") { LiteralPlain(j); }
    assert ps[..7] == STREAM_SECRETS.keys;
  }

  lemma LiteralPlain(j: nat)
    requires j < 8
    ensures |STREAM_SECRETS.Patterns()| == 8
    ensures Plain(STREAM_SECRETS.Patterns()[j])
    ensures j < 7 ==> STREAM_SECRETS.Patterns()[j] != "bearer "
  {
    var p := STREAM_SECRETS.Patterns()[j];
    match j
    case 0 => assert p == "sk_live_";
    case 1 => assert p == "sk_test_";
    case 2 => assert p == "rk_live_";
    case 3 => assert p == "ghp_";
    case 4 => assert p == "github_pat_"; assert p[0] == 'g';
    case 5 => assert p == "xoxb-";
    case 6 => assert p == "sg.";
    case 7 => assert p == "bearer ";
  }

  /** The proofs hold for every table that satisfies `Ok`, in particular for the shipped one. */
  type Table = t: PatternTable | t.Ok() witness (StreamSecretsOk(); STREAM_SECRETS)

  function MatchAt(tb: Table, s: string): (r: Option<string>)
    ensures r.Some? ==> 0 < |r.value| <= |s| && r.value in tb.Patterns()
  {
    FindSuffix(tb.Patterns(), s)
  }

  function Mask(tb: Table, p: string): string {
    if p == tb.bearer then "Bearer ***" else "***"
  }

  /** The characters swallowed after a match: \S after "bearer ", key characters otherwise. */
  predicate Swallows(tb: Table, p: string, c: char) {
    if p == tb.bearer then !IsSpace(c)
    else 'A' <= c <= 'Z' || 'a' <= c <= 'z' || '0' <= c <= '9' || c in "_.-"
  }

  function Skip(tb: Table, p: string, s: string): (r: string)
    ensures |r| <= |s|
  {
    if s != "" && Swallows(tb, p, s[0]) then Skip(tb, p, s[1..]) else s
  }

  // ---------------------------------------------------------------- reference

  ghost predicate NoHit(tb: Table, s: string) {
    forall e :: 0 <= e <= |s| ==> MatchAt(tb, s[..e]).None?
  }

  /** No pattern ends at a position from i on and before j. */
  ghost predicate NoneBetween(tb: Table, text: string, i: nat, j: nat) {
    forall k :: i <= k < j && k <= |text| ==> MatchAt(tb, text[..k]).None?
  }

  /** The least end position at which a pattern ends, or |text| + 1. */
  function NextHit(tb: Table, text: string, e: nat): (r: nat)
    requires e <= |text| + 1
    ensures e <= r <= |text| + 1
    ensures r <= |text| ==> MatchAt(tb, text[..r]).Some?
    decreases |text| + 1 - e
  {
    if e == |text| + 1 || MatchAt(tb, text[..e]).Some? then e else NextHit(tb, text, e + 1)
  }

  /** One-pass redaction of a whole text: cut at the earliest end of a pattern, mask it,
      swallow the secret behind it, and start afresh. */
  function Redact(tb: Table, text: string): string
    decreases |text|
  {
    var e := NextHit(tb, text, 0);
    if e > |text| then text
    else
      var p := MatchAt(tb, text[..e]).value;
      text[..e - |p|] + Mask(tb, p) + Redact(tb, Skip(tb, p, text[e..]))
  }

  // ---------------------------------------------------------------- the machine on values

  /** The last n characters of s could still grow into a pattern. */
  predicate PartialMatch(tb: Table, s: string, n: nat) {
    n <= |s| && exists i :: 0 <= i < |tb.Patterns()| && n < |tb.Patterns()[i]| && Lower(s)[|s| - n..] == tb.Patterns()[i][..n]
  }

  function GreatestPartial(tb: Table, s: string, n: nat): (r: nat)
    requires n <= |s|
    ensures r <= n
    ensures PartialMatch(tb, s, r)
    ensures forall k :: r < k <= n ==> !PartialMatch(tb, s, k)
  {
    if n == 0 then
      assert tb.Patterns()[0] in tb.Patterns() && Lower(s)[|s|..] == tb.Patterns()[0][..0];
      0
    else if PartialMatch(tb, s, n) then n else GreatestPartial(tb, s, n - 1)
  }

  /** Length of the longest suffix that is a proper prefix of some pattern. */
  function HoldLength(tb: Table, s: string): (n: nat)
    ensures n <= |s|
  {
    GreatestPartial(tb, s, |s|)
  }

  function HoldBack(tb: Table, s: string): string { s[|s| - HoldLength(tb, s)..] }

  function StepChar(tb: Table, st: State, c: char): State {
    if st.redacting.Some? && Swallows(tb, st.redacting.value, c) then st
    else
      var pending := st.pending + [c];
      match MatchAt(tb, pending)
      case Some(p) => State(st.out + pending[..|pending| - |p|] + Mask(tb, p), "", Some(p))
      case None =>
        var n := HoldLength(tb, pending);
        State(st.out + pending[..|pending| - n], pending[|pending| - n..], None)
  }

  function Feed(tb: Table, st: State, text: string): State {
    if text == "" then st else StepChar(tb, Feed(tb, st, text[..|text| - 1]), text[|text| - 1])
  }

  function Flushed(st: State): string {
    if st.redacting.None? then st.out + st.pending else st.out
  }

  /** Feeding the chunks of any cut, in order. */
  function FeedAll(tb: Table, st: State, chunks: seq<string>): State
    decreases |chunks|
  {
    if chunks == [] then st else FeedAll(tb, Feed(tb, st, chunks[0]), chunks[1..])
  }

  function Join(chunks: seq<string>): string {
    if chunks == [] then "" else chunks[0] + Join(chunks[1..])
  }

  lemma {:induction false} FeedConcat(tb: Table, st: State, a: string, b: string)
    ensures Feed(tb, st, a + b) == Feed(tb, Feed(tb, st, a), b)
  {
    hide StepChar;
    if b == "" {
      assert a + b == a;
    } else {
      FeedConcat(tb, st, a, b[..|b| - 1]);
      assert (a + b)[..|a + b| - 1] == a + b[..|b| - 1];
    }
  }

  lemma {:induction false} FeedAllIsFeedJoin(tb: Table, st: State, chunks: seq<string>)
    ensures FeedAll(tb, st, chunks) == Feed(tb, st, Join(chunks))
    decreases |chunks|
  {
    if chunks != [] {
      FeedAllIsFeedJoin(tb, Feed(tb, st, chunks[0]), chunks[1..]);
      FeedConcat(tb, st, chunks[0], Join(chunks[1..]));
    }
  }

  // ---------------------------------------------------------------- machine = reference

  /** What the reference still owes for `rest`, given what the machine holds. */
  function Resume(tb: Table, st: State, rest: string): string {
    if st.redacting.Some? then Redact(tb, Skip(tb, st.redacting.value, rest)) else Redact(tb, st.pending + rest)
  }

  ghost predicate Quiet(tb: Table, st: State) {
    NoHit(tb, st.pending) && (st.redacting.Some? ==> st.pending == "")
  }

  lemma NothingEndsInEmpty(tb: Table)
    ensures MatchAt(tb, "").None?
    ensures NoHit(tb, "")
  {
    assert forall p :: p in tb.Patterns() ==> !EndsWith("", p);
    assert ""[..0] == "";
  }

  /** A pattern that ends in a suffix ends in the whole, and with room enough conversely. */
  lemma EndsWithSuffix(a: string, b: string, p: string)
    ensures EndsWith(b, p) ==> EndsWith(a + b, p)
    ensures |p| <= |b| ==> (EndsWith(a + b, p) <==> EndsWith(b, p))
  {
    var la, lb := Lower(a), Lower(b);
    assert Lower(a + b) == la + lb;
    hide Lower;
    if |p| <= |b| { assert (la + lb)[|a| + |b| - |p|..] == lb[|b| - |p|..]; }
  }

  lemma NoHitSuffix(tb: Table, a: string, b: string)
    requires NoHit(tb, a + b)
    ensures NoHit(tb, b)
  {
    forall e | 0 <= e <= |b| ensures MatchAt(tb, b[..e]).None? {
      assert (a + b)[..|a| + e] == a + b[..e];
      assert MatchAt(tb, (a + b)[..|a| + e]).None?;
      if MatchAt(tb, b[..e]).Some? {
        EndsWithSuffix(a, b[..e], MatchAt(tb, b[..e]).value);
      }
    }
  }

  lemma {:induction false} FindSuffixSame(ps: seq<string>, s: string, t: string)
    requires forall p :: p in ps ==> (EndsWith(s, p) <==> EndsWith(t, p))
    ensures FindSuffix(ps, s) == FindSuffix(ps, t)
  {
    if ps != [] {
      assert ps[0] in ps;
      FindSuffixSame(ps[1..], s, t);
    }
  }

  /** A pattern that ends past s but starts inside it leaves a proper prefix at the end of s. */
  lemma OverhangIsPartial(tb: Table, s: string, y: string, e: nat, p: string)
    requires |s| < e <= |s + y| && p in tb.Patterns() && EndsWith((s + y)[..e], p) && |p| > e - |s|
    ensures PartialMatch(tb, s, |s| - (e - |p|))
  {
    var whole, n := (s + y)[..e], |s| - (e - |p|);
    assert whole[..|s|] == s;
    LowerPrefix(whole, |s|);
    var low := Lower(whole);
    assert low[..|s|][e - |p|..] == low[e - |p|..][..n];
    var i :| 0 <= i < |tb.Patterns()| && tb.Patterns()[i] == p;
    assert Lower(s)[|s| - n..] == tb.Patterns()[i][..n];
  }

  lemma LowerPrefix(s: string, n: nat)
    requires n <= |s|
    ensures Lower(s[..n]) == Lower(s)[..n]
  {
  }

  /** Past the held text, a pattern ending in `a + b + y` lies inside `b + y`: otherwise a
      longer suffix of `a + b` than `b` would be a proper prefix of it. */
  lemma MatchIgnoresSafePrefix(tb: Table, a: string, b: string, y: string, e: nat)
    requires |b| == HoldLength(tb, a + b)
    requires |a + b| < e <= |a + b + y|
    ensures MatchAt(tb, (a + b + y)[..e]) == MatchAt(tb, (b + y)[..e - |a|])
  {
    var whole, part := (a + b + y)[..e], (b + y)[..e - |a|];
    assert whole == a + part;
    forall p | p in tb.Patterns() ensures EndsWith(whole, p) <==> EndsWith(part, p) {
      EndsWithSuffix(a, part, p);
      if EndsWith(whole, p) && |p| > |part| {
        OverhangIsPartial(tb, a + b, y, e, p);
        assert false;
      }
    }
    FindSuffixSame(tb.Patterns(), whole, part);
  }

  lemma {:induction false} NothingBefore(tb: Table, text: string, e: nat)
    requires e <= |text| + 1
    ensures NoneBetween(tb, text, e, NextHit(tb, text, e))
    decreases |text| + 1 - e
  {
    hide MatchAt;
    if e <= |text| && MatchAt(tb, text[..e]).None? { NothingBefore(tb, text, e + 1); }
  }

  /** One step of the reference. */
  lemma RedactsAtNext(tb: Table, text: string)
    ensures var e := NextHit(tb, text, 0);
      Redact(tb, text) ==
        if e > |text| then text
        else var p := MatchAt(tb, text[..e]).value; text[..e - |p|] + Mask(tb, p) + Redact(tb, Skip(tb, p, text[e..]))
  {
    hide MatchAt, Skip, Mask, NextHit;
  }

  lemma NextHitIs(tb: Table, text: string, e: nat)
    requires e <= |text| + 1 && NoneBetween(tb, text, 0, e)
    requires e <= |text| ==> MatchAt(tb, text[..e]).Some?
    ensures NextHit(tb, text, 0) == e
  {
    hide NextHit, MatchAt;
    NothingBefore(tb, text, 0);
  }

  /** If no pattern ends within the first |a| + k characters of `a + u` nor within the first
      k of u, and beyond that both agree, then `a` passes through the redaction unchanged. */
  lemma RedactShifts(tb: Table, a: string, u: string, k: nat)
    requires k <= |u|
    requires forall e :: 0 <= e <= |a| + k ==> MatchAt(tb, (a + u)[..e]).None?
    requires forall e :: 0 <= e <= k ==> MatchAt(tb, u[..e]).None?
    requires forall e :: k < e <= |u| ==> MatchAt(tb, (a + u)[..|a| + e]) == MatchAt(tb, u[..e])
    ensures Redact(tb, a + u) == a + Redact(tb, u)
  {
    hide MatchAt, Skip, Mask, Redact, NextHit;
    var t, e := a + u, NextHit(tb, u, 0);
    NothingBefore(tb, u, 0);
    assert NoneBetween(tb, t, 0, |a| + e) by {
      forall j | 0 <= j < |a| + e && j <= |t| ensures MatchAt(tb, t[..j]).None? {
        if j > |a| + k { assert MatchAt(tb, t[..|a| + (j - |a|)]) == MatchAt(tb, u[..j - |a|]); }
      }
    }
    assert e <= |u| ==> MatchAt(tb, t[..|a| + e]) == MatchAt(tb, u[..e]);
    NextHitIs(tb, t, |a| + e);
    ShiftedHit(tb, a, u, e);
  }

  lemma ShiftedHit(tb: Table, a: string, u: string, e: nat)
    requires NextHit(tb, u, 0) == e && NextHit(tb, a + u, 0) == |a| + e
    requires e <= |u| ==> MatchAt(tb, (a + u)[..|a| + e]) == MatchAt(tb, u[..e])
    ensures Redact(tb, a + u) == a + Redact(tb, u)
  {
    hide MatchAt, Skip, Mask, Redact, NextHit, NoneBetween;
    if e > |u| {
      RedactNone(tb, a + u);
      RedactNone(tb, u);
    } else {
      var p := MatchAt(tb, u[..e]).value;
      CutBehind(a, u, e, |p|);
      RedactCut(tb, a + u, |a| + e, p, a + u[..e - |p|], u[e..]);
      RedactCut(tb, u, e, p, u[..e - |p|], u[e..]);
      Regroup(a, u[..e - |p|], Mask(tb, p), Redact(tb, Skip(tb, p, u[e..])));
    }
  }

  lemma RedactNone(tb: Table, text: string)
    requires NextHit(tb, text, 0) > |text|
    ensures Redact(tb, text) == text
  {
    hide MatchAt, Skip, Mask, NextHit;
  }

  /** The reference at a hit, with the parts before and after it named. */
  lemma RedactCut(tb: Table, text: string, e: nat, p: string, before: string, after: string)
    requires NextHit(tb, text, 0) == e && e <= |text| && MatchAt(tb, text[..e]) == Some(p)
    requires text[..e - |p|] == before && text[e..] == after
    ensures Redact(tb, text) == before + Mask(tb, p) + Redact(tb, Skip(tb, p, after))
  {
    hide MatchAt, Skip, Mask, Redact, NextHit, NoneBetween;
    RedactsAtNext(tb, text);
  }

  lemma CutBehind(a: string, u: string, e: nat, n: nat)
    requires n <= e <= |u|
    ensures (a + u)[..|a| + e - n] == a + u[..e - n] && (a + u)[|a| + e..] == u[e..]
  {
  }

  lemma Regroup(a: string, b: string, c: string, d: string)
    ensures a + b + c + d == a + (b + c + d)
  {
  }

  /** Emitting the safe prefix early does not change what the reference produces. */
  lemma EmitSafePrefix(tb: Table, a: string, b: string, y: string)
    requires NoHit(tb, a + b)
    requires |b| == HoldLength(tb, a + b)
    ensures Redact(tb, a + b + y) == a + Redact(tb, b + y)
  {
    hide MatchAt, HoldLength, Redact;
    var u := b + y;
    assert a + b + y == a + u;
    NoHitSuffix(tb, a, b);
    forall e | 0 <= e <= |b| ensures MatchAt(tb, u[..e]).None? {
      assert u[..e] == b[..e];
    }
    forall e | 0 <= e <= |a| + |b| ensures MatchAt(tb, (a + u)[..e]).None? {
      assert (a + u)[..e] == (a + b)[..e];
    }
    forall e | |b| < e <= |u| ensures MatchAt(tb, (a + u)[..|a| + e]) == MatchAt(tb, u[..e]) {
      MatchIgnoresSafePrefix(tb, a, b, y, |a| + e);
    }
    RedactShifts(tb, a, u, |b|);
  }

  lemma RedactAtHit(tb: Table, s: string, y: string, p: string)
    requires s != "" && NoHit(tb, s[..|s| - 1])
    requires MatchAt(tb, s) == Some(p)
    ensures Redact(tb, s + y) == s[..|s| - |p|] + Mask(tb, p) + Redact(tb, Skip(tb, p, y))
  {
    hide MatchAt, Skip, Mask, Redact, NextHit;
    HitComesNext(tb, s, y);
    hide NoHit, NoneBetween;
    CutAt(s, y, |p|);
    RedactCut(tb, s + y, |s|, p, s[..|s| - |p|], y);
  }

  lemma CutAt(s: string, y: string, n: nat)
    requires n <= |s|
    ensures (s + y)[..|s|] == s && (s + y)[|s|..] == y && (s + y)[..|s| - n] == s[..|s| - n]
  {
  }

  lemma HitComesNext(tb: Table, s: string, y: string)
    requires s != "" && NoHit(tb, s[..|s| - 1]) && MatchAt(tb, s).Some?
    ensures NextHit(tb, s + y, 0) == |s|
  {
    hide MatchAt, NextHit;
    var t, init := s + y, s[..|s| - 1];
    assert t[..|s|] == s;
    assert NoneBetween(tb, t, 0, |s|) by {
      forall e | 0 <= e < |s| ensures MatchAt(tb, t[..e]).None? { assert t[..e] == init[..e]; }
    }
    hide NoHit, NoneBetween;
    NextHitIs(tb, t, |s|);
  }

  lemma StepSound(tb: Table, st: State, c: char, rest: string)
    requires Quiet(tb, st)
    ensures Quiet(tb, StepChar(tb, st, c))
    ensures st.out + Resume(tb, st, [c] + rest) == StepChar(tb, st, c).out + Resume(tb, StepChar(tb, st, c), rest)
  {
    if st.redacting.Some? && Swallows(tb, st.redacting.value, c) {
      SkipOne(tb, st.redacting.value, c, rest);
    } else {
      ResumeReads(tb, st, c, rest);
      hide Quiet, Resume, StepChar;
      match MatchAt(tb, st.pending + [c])
      case Some(p) => StepHit(tb, st, c, rest, p);
      case None => StepQuiet(tb, st, c, rest);
    }
  }

  lemma SkipOne(tb: Table, p: string, c: char, rest: string)
    ensures Skip(tb, p, [c] + rest) == if Swallows(tb, p, c) then Skip(tb, p, rest) else [c] + rest
  {
    assert ([c] + rest)[1..] == rest;
  }

  /** A character that is not swallowed joins the pending text. */
  lemma ResumeReads(tb: Table, st: State, c: char, rest: string)
    requires Quiet(tb, st) && !(st.redacting.Some? && Swallows(tb, st.redacting.value, c))
    ensures Resume(tb, st, [c] + rest) == Redact(tb, st.pending + [c] + rest)
  {
    hide Redact, NoHit, Skip, Swallows;
    assert st.pending + [c] + rest == st.pending + ([c] + rest);
    if st.redacting.Some? {
      SkipOne(tb, st.redacting.value, c, rest);
      assert st.pending + ([c] + rest) == [c] + rest;
    }
  }

  lemma StepHit(tb: Table, st: State, c: char, rest: string, p: string)
    requires Quiet(tb, st) && !(st.redacting.Some? && Swallows(tb, st.redacting.value, c)) && MatchAt(tb, st.pending + [c]) == Some(p)
    ensures Quiet(tb, StepChar(tb, st, c))
    ensures st.out + Redact(tb, st.pending + [c] + rest) == StepChar(tb, st, c).out + Resume(tb, StepChar(tb, st, c), rest)
  {
    hide MatchAt, Redact, Mask, Swallows, Skip, HoldLength;
    var pending := st.pending + [c];
    assert pending[..|pending| - 1] == st.pending;
    NothingEndsInEmpty(tb);
    RedactAtHit(tb, pending, rest, p);
  }

  lemma StepQuiet(tb: Table, st: State, c: char, rest: string)
    requires Quiet(tb, st) && !(st.redacting.Some? && Swallows(tb, st.redacting.value, c)) && MatchAt(tb, st.pending + [c]).None?
    ensures Quiet(tb, StepChar(tb, st, c))
    ensures st.out + Redact(tb, st.pending + [c] + rest) == StepChar(tb, st, c).out + Resume(tb, StepChar(tb, st, c), rest)
  {
    hide MatchAt, Redact, Mask, Swallows, Skip, HoldLength, NoHit;
    EmitHeld(tb, st.pending, c, rest);
    var pending := st.pending + [c];
    var n := HoldLength(tb, pending);
    var a, b := pending[..|pending| - n], pending[|pending| - n..];
    assert StepChar(tb, st, c) == State(st.out + a, b, None);
    assert st.out + (a + Redact(tb, b + rest)) == (st.out + a) + Redact(tb, b + rest);
  }

  /** Without a hit, what is not held back is what the reference emits, and the rest is quiet. */
  lemma EmitHeld(tb: Table, before: string, c: char, rest: string)
    requires NoHit(tb, before) && MatchAt(tb, before + [c]).None?
    ensures var pending := before + [c];
      var n := HoldLength(tb, pending);
      NoHit(tb, pending[|pending| - n..]) && Redact(tb, pending + rest) == pending[..|pending| - n] + Redact(tb, pending[|pending| - n..] + rest)
  {
    hide MatchAt, HoldLength, Redact;
    var pending := before + [c];
    var n := HoldLength(tb, pending);
    var a, b := pending[..|pending| - n], pending[|pending| - n..];
    assert pending == a + b;
    forall e | 0 <= e <= |pending| ensures MatchAt(tb, pending[..e]).None? {
      if e < |pending| { assert pending[..e] == before[..e]; } else { assert pending[..e] == pending; }
    }
    NoHitSuffix(tb, a, b);
    EmitSafePrefix(tb, a, b, rest);
  }

  lemma {:induction false} FeedSound(tb: Table, st: State, text: string, rest: string)
    requires Quiet(tb, st)
    ensures Quiet(tb, Feed(tb, st, text))
    ensures st.out + Resume(tb, st, text + rest) == Feed(tb, st, text).out + Resume(tb, Feed(tb, st, text), rest)
  {
    hide StepChar, Redact, NoHit, Skip;
    if text == "" {
      assert text + rest == rest;
    } else {
      var init, c := text[..|text| - 1], text[|text| - 1];
      FeedSound(tb, st, init, [c] + rest);
      assert init + ([c] + rest) == text + rest;
      StepSound(tb, Feed(tb, st, init), c, rest);
    }
  }

  /** Main result: however the text is cut into chunks, what has been written after the
      flush is the one-pass redaction of the whole text. */
  lemma StreamingEqualsReference(tb: Table, chunks: seq<string>)
    ensures Flushed(FeedAll(tb, INIT, chunks)) == Redact(tb, Join(chunks))
  {
    hide StepChar, Redact, NoHit, Skip, Join;
    var text := Join(chunks);
    FeedAllIsFeedJoin(tb, INIT, chunks);
    NothingEndsInEmpty(tb);
    FeedSound(tb, INIT, text, "");
    var st := Feed(tb, INIT, text);
    assert text + "" == text && "" + text == text;
    assert st.pending + "" == st.pending;
    RedactQuiet(tb, st.pending);
    RedactQuiet(tb, "");
    assert st.redacting.Some? ==> Skip(tb, st.redacting.value, "") == "";
    assert INIT.out + Resume(tb, INIT, text) == Redact(tb, text);
  }

  lemma RedactQuiet(tb: Table, s: string)
    requires NoHit(tb, s)
    ensures Redact(tb, s) == s
  {
    assert NextHit(tb, s, 0) > |s|;
  }

  // ---------------------------------------------------------------- the hold-back buffer

  /** The text since the last masked secret ended. */
  ghost function Segment(tb: Table, text: string): string {
    if text == "" then ""
    else
      var init, c := text[..|text| - 1], text[|text| - 1];
      NextSegment(tb, Feed(tb, INIT, init), Segment(tb, init), c)
  }

  /** A partial match of `s + [c]` extends one of `s`. */
  lemma PartialShrinks(tb: Table, s: string, c: char, n: nat)
    requires PartialMatch(tb, s + [c], n) && n > 0
    ensures PartialMatch(tb, s, n - 1)
  {
    var i :| 0 <= i < |tb.Patterns()| && n < |tb.Patterns()[i]| && Lower(s + [c])[|s| + 1 - n..] == tb.Patterns()[i][..n];
    var p := tb.Patterns()[i];
    assert Lower(s)[|s| - (n - 1)..] == Lower(s + [c])[|s| + 1 - n..][..n - 1] == p[..n][..n - 1] == p[..n - 1];
  }

  lemma PartialOfSuffix(tb: Table, a: string, b: string, n: nat)
    requires n <= |b|
    ensures PartialMatch(tb, a + b, n) <==> PartialMatch(tb, b, n)
  {
    assert Lower(a + b)[|a + b| - n..] == Lower(b)[|b| - n..];
  }

  /** Holding back only the buffer loses nothing: the next buffer is the same as if the
      whole segment had been kept. */
  lemma HoldExtends(tb: Table, s: string, c: char)
    ensures MatchAt(tb, s + [c]) == MatchAt(tb, HoldBack(tb, s) + [c])
    ensures HoldBack(tb, s + [c]) == HoldBack(tb, HoldBack(tb, s) + [c])
  {
    hide MatchAt, PartialMatch;
    var a, b := s[..|s| - HoldLength(tb, s)], HoldBack(tb, s);
    assert s == a + b;
    assert s + [c] == a + (b + [c]);
    assert (a + b + [c])[..|s| + 1] == s + [c] && (b + [c])[..|b| + 1] == b + [c];
    MatchIgnoresSafePrefix(tb, a, b, [c], |s| + 1);
    var n := HoldLength(tb, s + [c]);
    if n > 0 {
      PartialShrinks(tb, s, c, n);
    }
    assert n <= |b| + 1;
    forall k | 0 <= k <= |b| + 1 ensures PartialMatch(tb, s + [c], k) <==> PartialMatch(tb, b + [c], k) {
      PartialOfSuffix(tb, a, b + [c], k);
    }
    assert HoldLength(tb, b + [c]) == n;
  }

  /** How one character changes the segment. */
  ghost function NextSegment(tb: Table, st: State, segment: string, c: char): string {
    if st.redacting.Some? && Swallows(tb, st.redacting.value, c) then ""
    else if MatchAt(tb, st.pending + [c]).Some? then ""
    else segment + [c]
  }

  lemma StepHolds(tb: Table, st: State, segment: string, c: char)
    requires st.pending == HoldBack(tb, segment) && (st.redacting.Some? ==> segment == "")
    ensures var st', next := StepChar(tb, st, c), NextSegment(tb, st, segment, c);
      st'.pending == HoldBack(tb, next) && (st'.redacting.Some? ==> next == "")
  {
    hide MatchAt, HoldLength, Mask, Swallows;
    HoldExtends(tb, segment, c);
    HoldsNothing(tb);
    hide HoldBack;
    assert MatchAt(tb, st.pending + [c]).None? ==> HoldBack(tb, st.pending + [c]) == HoldBack(tb, segment + [c]);
    StepPending(tb, st, c);
    hide StepChar;
  }

  /** What a step leaves pending. */
  lemma StepPending(tb: Table, st: State, c: char)
    ensures var st', pending := StepChar(tb, st, c), st.pending + [c];
      if st.redacting.Some? && Swallows(tb, st.redacting.value, c) then st' == st
      else if MatchAt(tb, pending).Some? then st'.pending == ""
      else st'.pending == HoldBack(tb, pending) && st'.redacting.None?
  {
    hide MatchAt, HoldLength, Mask, Swallows;
  }

  lemma HoldsNothing(tb: Table)
    ensures HoldBack(tb, "") == ""
  {
  }

  /** At every moment the buffer is the longest suffix of the current segment that is a
      proper prefix of a pattern, at most ten characters. */
  lemma {:induction false} BufferIsLongestPartialSuffix(tb: Table, text: string)
    ensures Feed(tb, INIT, text).pending == HoldBack(tb, Segment(tb, text))
    ensures |Feed(tb, INIT, text).pending| <= 10
    ensures Feed(tb, INIT, text).redacting.Some? ==> Segment(tb, text) == ""
  {
    hide HoldLength, StepChar, NextSegment;
    HoldsNothing(tb);
    if text != "" {
      var init, c := text[..|text| - 1], text[|text| - 1];
      BufferIsLongestPartialSuffix(tb, init);
      hide HoldBack;
      StepHolds(tb, Feed(tb, INIT, init), Segment(tb, init), c);
    }
    HoldIsShort(tb, Segment(tb, text));
  }

  lemma HoldIsShort(tb: Table, s: string)
    ensures |HoldBack(tb, s)| <= 10
  {
    var n := HoldLength(tb, s);
    var i :| 0 <= i < |tb.Patterns()| && n < |tb.Patterns()[i]|;
    assert tb.Patterns()[i] in tb.Patterns();
  }

  // ---------------------------------------------------------------- what the output cannot contain

  /** No key prefix occurs in s, in any letter case. */
  ghost predicate NoKeyPrefix(tb: Table, s: string) {
    forall e, p :: 0 <= e <= |s| && p in tb.keys ==> !EndsWith(s[..e], p)
  }

  /** Every "bearer " in s, in any letter case, is directly followed by the mask. */
  ghost predicate BearerMasked(tb: Table, s: string) {
    forall e :: 0 <= e <= |s| && EndsWith(s[..e], tb.bearer) ==> e + 3 <= |s| && s[e..e + 3] == "***"
  }

  /** A pattern cannot reach across a star: it ends before it or starts after it. */
  lemma StarsSeparate(tb: Table, x: string, y: string, e: nat, p: string)
    requires p in tb.Patterns()
    requires e <= |x + "***" + y| && EndsWith((x + "***" + y)[..e], p)
    ensures (e <= |x| && EndsWith(x[..e], p)) || (e >= |x| + 3 && EndsWith(y[..e - |x| - 3], p))
  {
    var s := x + "***" + y;
    if e <= |x| {
      assert s[..e] == x[..e];
    } else {
      forall i | e - |p| <= i < e ensures s[i] != '*' {
        assert Lower(s[..e])[e - |p|..][i - (e - |p|)] == p[i - (e - |p|)];
      }
      assert s[|x|] == '*' && s[|x| + 1] == '*' && s[|x| + 2] == '*';
      var tail := y[..e - |x| - 3];
      assert s[..e] == (x + "***") + tail;
      EndsWithSuffix(x + "***", tail, p);
    }
  }

  lemma CleanAroundMask(tb: Table, x: string, y: string)
    requires NoKeyPrefix(tb, x) && NoKeyPrefix(tb, y)
    requires forall e :: 0 <= e < |x| ==> !EndsWith(x[..e], tb.bearer)
    requires BearerMasked(tb, y)
    ensures NoKeyPrefix(tb, x + "***" + y) && BearerMasked(tb, x + "***" + y)
  {
    hide EndsWith;
    var s := x + "***" + y;
    forall e, p | 0 <= e <= |s| && p in tb.keys ensures !EndsWith(s[..e], p) {
      if EndsWith(s[..e], p) { StarsSeparate(tb, x, y, e, p); }
    }
    forall e | 0 <= e <= |s| && EndsWith(s[..e], tb.bearer) ensures e + 3 <= |s| && s[e..e + 3] == "***" {
      StarsSeparate(tb, x, y, e, tb.bearer);
      if e <= |x| {
        assert e == |x|;
      } else {
        var k := e - |x| - 3;
        assert EndsWith(y[..k], tb.bearer);
        assert s[e..e + 3] == y[k..k + 3];
      }
    }
  }

  lemma LowerEqualEndsWith(s: string, t: string)
    requires Lower(s) == Lower(t)
    ensures forall p :: EndsWith(s, p) <==> EndsWith(t, p)
  {
  }

  /** Up to the first hit nothing but the hit itself ends with a pattern. */
  ghost predicate OnlyHitAtEnd(tb: Table, z: string) {
    forall k, p :: 0 <= k < |z| && p in tb.Patterns() ==> !EndsWith(z[..k], p)
  }

  /** Rewriting the scheme word to "Bearer " keeps the text clean. */
  lemma BearerRewritten(tb: Table, z: string, x: string)
    requires MatchAt(tb, z) == Some(tb.bearer) && OnlyHitAtEnd(tb, z)
    requires x == z[..|z| - |tb.bearer|] + "Bearer "
    ensures NoKeyPrefix(tb, x) && forall k :: 0 <= k < |x| ==> !EndsWith(x[..k], tb.bearer)
  {
    assert EndsWith(z, tb.bearer);
    hide MatchAt;
    assert Lower(x) == Lower(z) by {
      assert Lower(z) == Lower(z)[..|z| - |tb.bearer|] + Lower(z)[|z| - |tb.bearer|..];
    }
    KeysComeFirst(tb, z);
    KeysArePatterns(tb);
    forall k | 0 <= k <= |x|
      ensures k < |x| ==> !EndsWith(x[..k], tb.bearer)
      ensures forall q :: q in tb.keys ==> !EndsWith(x[..k], q)
    {
      assert Lower(x[..k]) == Lower(x)[..k] == Lower(z)[..k] == Lower(z[..k]);
      LowerEqualEndsWith(x[..k], z[..k]);
      hide EndsWith;
      assert k == |x| ==> z[..k] == z;
    }
  }

  lemma PrefixClean(tb: Table, z: string, x: string)
    requires OnlyHitAtEnd(tb, z) && |x| < |z| && x == z[..|x|]
    ensures NoKeyPrefix(tb, x) && forall k :: 0 <= k < |x| ==> !EndsWith(x[..k], tb.bearer)
  {
    forall k | 0 <= k <= |x| ensures x[..k] == z[..k] {}
    KeysArePatterns(tb);
  }

  lemma NoHitClean(tb: Table, s: string)
    requires NoHit(tb, s)
    ensures NoKeyPrefix(tb, s) && BearerMasked(tb, s)
  {
    forall e, p | 0 <= e <= |s| && p in tb.Patterns() ensures !EndsWith(s[..e], p) {
      assert MatchAt(tb, s[..e]).None?;
    }
    KeysArePatterns(tb);
  }

  /** The redacted text contains none of the seven key prefixes in any letter case, and
      every "bearer " in it is followed by the mask. */
  lemma {:induction false} RedactedIsClean(tb: Table, text: string)
    ensures NoKeyPrefix(tb, Redact(tb, text)) && BearerMasked(tb, Redact(tb, text))
    decreases |text|
  {
    hide EndsWith, Skip, NoKeyPrefix, BearerMasked, NoHit, NoneBetween, MatchAt, Redact, NextHit, OnlyHitAtEnd;
    RedactsAtNext(tb, text);
    var e := NextHit(tb, text, 0);
    if e > |text| {
      assert NoHit(tb, text) by { NextHitNone(tb, text); }
      NoHitClean(tb, text);
    } else {
      var z := text[..e];
      var p := MatchAt(tb, z).value;
      var y := Redact(tb, Skip(tb, p, text[e..]));
      RedactedIsClean(tb, Skip(tb, p, text[e..]));
      OnlyAtNextHit(tb, text);
      var x := if p == tb.bearer then z[..|z| - |p|] + "Bearer " else z[..|z| - |p|];
      if p == tb.bearer { BearerRewritten(tb, z, x); } else { PrefixClean(tb, z, x); }
      CleanAroundMask(tb, x, y);
      assert text[..e - |p|] == z[..|z| - |p|];
      assert Redact(tb, text) == x + "***" + y;
    }
  }

  lemma KeysArePatterns(tb: Table)
    ensures tb.bearer in tb.Patterns()
    ensures forall q :: q in tb.keys ==> q in tb.Patterns()
  {
    assert tb.Patterns()[|tb.keys|] == tb.bearer;
    forall q | q in tb.keys ensures q in tb.Patterns() {
      var i :| 0 <= i < |tb.keys| && tb.keys[i] == q;
      assert tb.Patterns()[i] == q;
    }
  }

  lemma NextHitNone(tb: Table, text: string)
    requires NextHit(tb, text, 0) > |text|
    ensures NoHit(tb, text)
  {
    hide NextHit, MatchAt;
    NothingBefore(tb, text, 0);
  }

  lemma OnlyAtNextHit(tb: Table, text: string)
    requires NextHit(tb, text, 0) <= |text|
    ensures OnlyHitAtEnd(tb, text[..NextHit(tb, text, 0)])
  {
    var e := NextHit(tb, text, 0);
    NothingBefore(tb, text, 0);
    hide NextHit;
    forall k, p | 0 <= k < e && p in tb.Patterns() ensures !EndsWith(text[..e][..k], p) {
      assert text[..e][..k] == text[..k];
      assert MatchAt(tb, text[..k]).None?;
    }
  }

  lemma KeysComeFirst(tb: Table, s: string)
    requires MatchAt(tb, s) == Some(tb.bearer)
    ensures forall p :: p in tb.keys ==> !EndsWith(s, p)
  {
    FindSuffixAppend(tb.keys, [tb.bearer], s);
  }

  lemma {:induction false} FindSuffixAppend(ps: seq<string>, qs: seq<string>, s: string)
    ensures FindSuffix(ps, s).Some? ==> FindSuffix(ps + qs, s) == FindSuffix(ps, s)
  {
    if ps != [] {
      assert (ps + qs)[1..] == ps[1..] + qs;
      FindSuffixAppend(ps[1..], qs, s);
    }
  }

  // ---------------------------------------------------------------- the closure itself

  class StreamingRedactor {
    const table: Table
    var out: string                   // everything handed to the write callback, in order
    var pending: string
    var redacting: Option<string>
    ghost var fed: string

    ghost predicate Valid()
      reads this
    {
      State(out, pending, redacting) == Feed(table, INIT, fed)
    }

    constructor ()
      ensures Valid() && fed == "" && table == STREAM_SECRETS
    {
      StreamSecretsOk();
      table := STREAM_SECRETS;
      out, pending, redacting, fed := "", "", None, "";
    }

    /** No suffix of s longer than `length` is a proper prefix of p. */
    ghost static predicate NoneLonger(p: string, s: string, length: int) {
      forall k :: length < k <= |s| && 0 <= k < |p| ==> Lower(s)[|s| - k..] != p[..k]
    }

    /** The inner loop: the longest suffix of s that is a proper prefix of p. */
    static method LongestPartial(p: string, s: string) returns (length: nat)
      requires p != ""
      ensures length <= |s| && length < |p| && Lower(s)[|s| - length..] == p[..length] && NoneLonger(p, s, length)
    {
      var normalized := Lower(s);
      length := if |p| - 1 < |s| then |p| - 1 else |s|;
      while length > 0 && normalized[|s| - length..] != p[..length]
        invariant length <= |s| && length < |p| && NoneLonger(p, s, length)
      {
        length := length - 1;
      }
      assert normalized[|s|..] == "" == p[..0];
    }

    static lemma GreatestIs(tb: Table, s: string, n: nat, i: nat)
      requires i < |tb.Patterns()| && n <= |s| && n < |tb.Patterns()[i]| && Lower(s)[|s| - n..] == tb.Patterns()[i][..n]
      requires forall j :: 0 <= j < |tb.Patterns()| ==> NoneLonger(tb.Patterns()[j], s, n)
      ensures n == HoldLength(tb, s)
    {
      assert PartialMatch(tb, s, n);
      forall k | n < k <= |s| ensures !PartialMatch(tb, s, k) {}
    }

    /** Longest suffix of pending that is a proper prefix of a pattern, pattern by pattern. */
    method SafeSuffixLength() returns (suffixLength: nat)
      ensures suffixLength == HoldLength(table, pending)
    {
      var patterns := table.Patterns();
      assert forall p :: p in patterns ==> Plain(p);
      suffixLength := 0;
      ghost var best := 0;
      assert patterns[0] in patterns && Lower(pending)[|pending|..] == patterns[0][..0];
      hide NoneLonger, HoldLength, Lower;
      for i := 0 to |patterns|
        invariant best < |patterns| && suffixLength <= |pending| && suffixLength < |patterns[best]|
        invariant Lower(pending)[|pending| - suffixLength..] == patterns[best][..suffixLength]
        invariant forall j :: 0 <= j < i ==> NoneLonger(patterns[j], pending, suffixLength)
      {
        assert patterns[i] in patterns;
        var length := LongestPartial(patterns[i], pending);
        forall j | 0 <= j <= i ensures NoneLonger(patterns[j], pending, if length > suffixLength then length else suffixLength) {
          Loosen(patterns[j], pending, if j < i then suffixLength else length, if length > suffixLength then length else suffixLength);
        }
        if length > suffixLength { suffixLength, best := length, i; }
      }
      GreatestIs(table, pending, suffixLength, best);
    }

    static lemma Loosen(p: string, s: string, m: nat, n: nat)
      requires NoneLonger(p, s, m) && m <= n
      ensures NoneLonger(p, s, n)
    {
    }

    method FlushSafePrefix()
      modifies this`out, this`pending
      ensures out == old(out) + old(pending)[..|old(pending)| - HoldLength(table, old(pending))]
      ensures pending == HoldBack(table, old(pending))
    {
      var n := SafeSuffixLength();
      if |pending| > n {
        out := out + pending[..|pending| - n];
        pending := pending[|pending| - n..];
      }
    }

    /** One turn of the loop in `consume`. */
    method ConsumeCharacter(c: char)
      modifies this`out, this`pending, this`redacting
      ensures State(out, pending, redacting) == StepChar(table, old(State(out, pending, redacting)), c)
    {
      hide MatchAt, Mask, Swallows, HoldLength;
      if redacting.Some? {
        if Swallows(table, redacting.value, c) { return; }
        redacting := None;
      }
      pending := pending + [c];
      var matched := MatchAt(table, pending);
      if matched.Some? {
        out := out + pending[..|pending| - |matched.value|] + Mask(table, matched.value);
        pending := "";
        redacting := matched;
        return;
      }
      FlushSafePrefix();
    }

    /** `consume`: character by character, for any chunk. */
    method Write(text: string)
      requires Valid()
      modifies this
      ensures Valid() && fed == old(fed) + text
    {
      hide StepChar;
      var i := 0;
      assert fed + text[..0] == fed;
      while i < |text|
        invariant 0 <= i <= |text|
        invariant State(out, pending, redacting) == Feed(table, INIT, old(fed) + text[..i])
        invariant fed == old(fed)
      {
        assert (old(fed) + text[..i + 1])[..|old(fed)| + i] == old(fed) + text[..i];
        ConsumeCharacter(text[i]);
        i := i + 1;
      }
      fed := fed + text;
      assert text[..|text|] == text;
    }

    /** After the flush the whole output is the reference redaction of all that was fed,
        and it is clean. */
    method Flush()
      requires Valid()
      modifies this
      ensures out == Redact(table, fed) && NoKeyPrefix(table, out) && BearerMasked(table, out)
      ensures pending == "" && fed == old(fed)
    {
      hide Feed, Redact, NoKeyPrefix, BearerMasked;
      StreamingEqualsReference(table, [fed]);
      FeedAllIsFeedJoin(table, INIT, [fed]);
      assert Join([fed]) == fed + Join([]) == fed;
      RedactedIsClean(table, fed);
      if redacting.None? { out := out + pending; }
      pending := "";
    }
  }
}
