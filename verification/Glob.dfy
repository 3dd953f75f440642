/** Matching of policy patterns in which `*` stands for any run of characters. */
module Glob {
  /** The meaning of a pattern. */
  predicate Matches(pattern: string, value: string)
    decreases |pattern|, |value|
  {
    if pattern == [] then value == []
    else if pattern[0] == '*' then Matches(pattern[1..], value) || (value != [] && Matches(pattern, value[1..]))
    else value != [] && value[0] == pattern[0] && Matches(pattern[1..], value[1..])
  }

  /** The same read from the right end, as the table is filled. */
  predicate MatchesFromEnd(pattern: string, value: string)
    decreases |pattern|, |value|
  {
    if pattern == [] then value == []
    else
      var init, last := pattern[..|pattern| - 1], pattern[|pattern| - 1];
      if last == '*' then MatchesFromEnd(init, value) || (value != [] && MatchesFromEnd(pattern, value[..|value| - 1]))
      else value != [] && value[|value| - 1] == last && MatchesFromEnd(init, value[..|value| - 1])
  }

  /** A star matches exactly the runs that can be cut off after a match of the rest. */
  lemma {:induction false} StarCuts(pattern: string, value: string)
    requires pattern != [] && pattern[0] == '*'
    ensures Matches(pattern, value) <==> exists k :: 0 <= k <= |value| && Matches(pattern[1..], value[k..])
    decreases |value|
  {
    assert value[0..] == value;
    if value != [] {
      StarCuts(pattern, value[1..]);
      forall k | 0 <= k < |value| ensures value[1..][k..] == value[k + 1..] {}
      if Matches(pattern, value[1..]) {
        var k :| 0 <= k <= |value[1..]| && Matches(pattern[1..], value[1..][k..]);
        assert Matches(pattern[1..], value[k + 1..]);
      }
      if k :| 0 <= k <= |value| && Matches(pattern[1..], value[k..]) {
        if k > 0 { assert value[1..][k - 1..] == value[k..]; }
      }
    }
  }

  /** A pattern in two parts matches exactly the values that split in two. */
  ghost predicate Splits(p: string, q: string, value: string) {
    exists k :: 0 <= k <= |value| && Matches(p, value[..k]) && Matches(q, value[k..])
  }

  lemma {:induction false} MatchesConcat(p: string, q: string, value: string)
    ensures Matches(p + q, value) <==> Splits(p, q, value)
    decreases |p|, |value|
  {
    if p == [] {
      assert p + q == q && value[..0] == [] && value[0..] == value;
      assert Splits(p, q, value) ==> Matches(q, value);
      assert Matches(q, value) ==> Matches(p, value[..0]) && Matches(q, value[0..]);
    } else {
      assert (p + q)[0] == p[0] && (p + q)[1..] == p[1..] + q;
      if p[0] == '*' {
        MatchesConcat(p[1..], q, value);
        if value != [] { MatchesConcat(p, q, value[1..]); }
        StarSplits(p, q, value);
      } else if value != [] {
        MatchesConcat(p[1..], q, value[1..]);
        LetterSplits(p, q, value);
      }
    }
  }

  lemma StarSplits(p: string, q: string, value: string)
    requires p != [] && p[0] == '*'
    ensures Splits(p, q, value) <==> Splits(p[1..], q, value) || (value != [] && Splits(p, q, value[1..]))
  {
    if k :| 0 <= k <= |value| && Matches(p, value[..k]) && Matches(q, value[k..]) {
      if !Matches(p[1..], value[..k]) {
        assert value[..k][1..] == value[1..][..k - 1] && value[1..][k - 1..] == value[k..];
      }
    }
    if k :| 0 <= k <= |value| && Matches(p[1..], value[..k]) && Matches(q, value[k..]) {
      assert Matches(p, value[..k]);
    }
    if value != [] {
      if k :| 0 <= k <= |value[1..]| && Matches(p, value[1..][..k]) && Matches(q, value[1..][k..]) {
        assert value[..k + 1][1..] == value[1..][..k] && value[k + 1..] == value[1..][k..];
        assert Matches(p, value[..k + 1]);
      }
    }
  }

  lemma LetterSplits(p: string, q: string, value: string)
    requires p != [] && p[0] != '*' && value != []
    ensures Splits(p, q, value) <==> value[0] == p[0] && Splits(p[1..], q, value[1..])
  {
    if k :| 0 <= k <= |value| && Matches(p, value[..k]) && Matches(q, value[k..]) {
      assert k > 0;
      assert value[..k][1..] == value[1..][..k - 1] && value[1..][k - 1..] == value[k..];
    }
    if value[0] == p[0] {
      if k :| 0 <= k <= |value[1..]| && Matches(p[1..], value[1..][..k]) && Matches(q, value[1..][k..]) {
        assert value[..k + 1][1..] == value[1..][..k] && value[k + 1..] == value[1..][k..];
        assert Matches(p, value[..k + 1]);
      }
    }
  }

  lemma SplitAtLast(init: string, last: char, value: string)
    ensures last != '*' ==> (Splits(init, [last], value) <==> value != [] && value[|value| - 1] == last && Matches(init, value[..|value| - 1]))
    ensures last == '*' ==> (Splits(init, [last], value) <==> exists k :: 0 <= k <= |value| && Matches(init, value[..k]))
  {
    forall v: string ensures Matches([last], v) <==> last == '*' || v == [last] { OneCharacter(last, v); }
    if last != '*' {
      if value != [] {
        var n := |value| - 1;
        assert value[n..] == [value[n]];
        forall k | 0 <= k <= |value| && value[k..] == [last] ensures k == n {}
      }
    }
  }

  lemma {:induction false} OneCharacter(c: char, value: string)
    ensures Matches([c], value) <==> c == '*' || value == [c]
    decreases |value|
  {
    assert [c][1..] == [];
    if value != [] && c == '*' { OneCharacter(c, value[1..]); }
  }

  /** Reading from either end gives the same matches. */
  lemma {:induction false} SameFromEnd(pattern: string, value: string)
    ensures MatchesFromEnd(pattern, value) <==> Matches(pattern, value)
    decreases |pattern|, |value|
  {
    if pattern != [] {
      var init, last := pattern[..|pattern| - 1], pattern[|pattern| - 1];
      assert pattern == init + [last];
      MatchesConcat(init, [last], value);
      SplitAtLast(init, last, value);
      if last == '*' {
        SameFromEnd(init, value);
        if value != [] {
          var v := value[..|value| - 1];
          SameFromEnd(pattern, v);
          MatchesConcat(init, [last], v);
          SplitAtLast(init, last, v);
          forall k | 0 <= k <= |v| ensures v[..k] == value[..k] {}
          if k :| 0 <= k <= |value| && Matches(init, value[..k]) {
            assert k <= |v| ==> v[..k] == value[..k];
            assert k == |value| ==> value[..k] == value;
          }
          if k :| 0 <= k <= |v| && Matches(init, v[..k]) { assert value[..k] == v[..k]; }
        }
        assert value[..|value|] == value;
      } else if value != [] {
        SameFromEnd(init, value[..|value| - 1]);
      }
    }
  }

  /** The row of the table after the pattern read so far: entry j tells of the first j
      characters of the value. */
  ghost predicate Row(states: seq<bool>, pattern: string, value: string) {
    |states| == |value| + 1 && forall j :: 0 <= j <= |value| ==> states[j] == MatchesFromEnd(pattern, value[..j])
  }

  method GlobMatches(pattern: string, value: string) returns (matches: bool)
    ensures matches <==> Matches(pattern, value)
  {
    hide Matches;
    var states := new bool[|value| + 1](i => false);
    states[0] := true;
    for p := 0 to |pattern|
      invariant Row(states[..], pattern[..p], value)
    {
      ghost var before, read := states[..], pattern[..p + 1];
      assert read[..p] == pattern[..p] && read[p] == pattern[p];
      if pattern[p] == '*' {
        assert MatchesFromEnd(read, value[..0]) == MatchesFromEnd(pattern[..p], value[..0]);
        for j := 1 to states.Length
          invariant forall k :: 0 <= k < j ==> states[k] == MatchesFromEnd(read, value[..k])
          invariant forall k :: j <= k < states.Length ==> states[k] == before[k]
        {
          assert value[..j][..j - 1] == value[..j - 1];
          states[j] := states[j] || states[j - 1];
        }
      } else {
        for j := states.Length downto 1
          invariant forall k :: j <= k < states.Length ==> states[k] == MatchesFromEnd(read, value[..k])
          invariant forall k :: 0 <= k < j ==> states[k] == before[k]
        {
          assert value[..j][..j - 1] == value[..j - 1];
          states[j] := states[j - 1] && value[j - 1] == pattern[p];
        }
        states[0] := false;
      }
    }
    assert pattern[..|pattern|] == pattern && value[..|value|] == value;
    SameFromEnd(pattern, value);
    matches := states[|value|];
  }
}
