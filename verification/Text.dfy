/** White space as `str.strip()` and the pattern `\s` see it. */
module Text {

  predicate IsSpace(c: char) {
    || '\t' <= c <= '\r'
    || '\U{1c}' <= c <= ' '
    || c == '\U{85}' || c == '\U{a0}' || c == '\U{1680}'
    || '\U{2000}' <= c <= '\U{200a}'
    || c == '\U{2028}' || c == '\U{2029}' || c == '\U{202f}' || c == '\U{205f}' || c == '\U{3000}'
  }

  function StripLeft(s: string): string {
    if s != [] && IsSpace(s[0]) then StripLeft(s[1..]) else s
  }

  function StripRight(s: string): string {
    if s != [] && IsSpace(s[|s| - 1]) then StripRight(s[..|s| - 1]) else s
  }

  function Strip(s: string): string {
    StripRight(StripLeft(s))
  }

  /** No white space at either end. */
  predicate Trimmed(s: string) {
    s != [] ==> !IsSpace(s[0]) && !IsSpace(s[|s| - 1])
  }

  lemma {:induction false} StripLeftSuffix(s: string)
    ensures |StripLeft(s)| <= |s| && s[|s| - |StripLeft(s)|..] == StripLeft(s)
    ensures StripLeft(s) != [] ==> !IsSpace(StripLeft(s)[0])
  {
    if s != [] && IsSpace(s[0]) { StripLeftSuffix(s[1..]); }
  }

  lemma {:induction false} StripRightPrefix(s: string)
    ensures |StripRight(s)| <= |s| && s[..|StripRight(s)|] == StripRight(s)
    ensures StripRight(s) != [] ==> !IsSpace(StripRight(s)[|StripRight(s)| - 1])
  {
    if s != [] && IsSpace(s[|s| - 1]) { StripRightPrefix(s[..|s| - 1]); }
  }

  /** Stripping cuts a trimmed piece out of the text, and leaves trimmed text alone. */
  lemma {:induction false} StripTrims(s: string)
    ensures Trimmed(Strip(s))
    ensures forall c :: c in Strip(s) ==> c in s
    ensures Trimmed(s) ==> Strip(s) == s
  {
    var left := StripLeft(s);
    var both := StripRight(left);
    StripLeftSuffix(s);
    StripRightPrefix(left);
    assert both != [] ==> both[0] == left[0];
    forall c | c in both ensures c in s {
      var i :| 0 <= i < |both| && both[i] == c;
      assert left[i] == c && s[|s| - |left|..][i] == c;
    }
  }

  /** Nothing but white space. */
  predicate Blank(s: string) {
    forall c :: c in s ==> IsSpace(c)
  }

  lemma {:induction false} StripLeftPads(before: string, s: string)
    requires Blank(before) && s != [] && !IsSpace(s[0])
    ensures StripLeft(before + s) == s
  {
    if before == [] {
      assert before + s == s;
    } else {
      assert before[0] in before && (before + s)[1..] == before[1..] + s;
      StripLeftPads(before[1..], s);
    }
  }

  lemma {:induction false} StripRightPads(s: string, after: string)
    requires Blank(after) && s != [] && !IsSpace(s[|s| - 1])
    ensures StripRight(s + after) == s
  {
    if after == [] {
      assert s + after == s;
    } else {
      var n := |after| - 1;
      assert after[n] in after && (s + after)[..|s| + n] == s + after[..n];
      StripRightPads(s, after[..n]);
    }
  }

  /** Stripping removes the white space around a text and nothing else. */
  lemma {:induction false} StripPads(before: string, s: string, after: string)
    requires Blank(before) && Blank(after) && s != [] && Trimmed(s)
    ensures Strip(before + s + after) == s
  {
    assert before + s + after == before + (s + after);
    StripLeftPads(before, s + after);
    StripRightPads(s, after);
  }

  lemma {:induction false} StripLeftBlank(s: string) returns (before: string)
    ensures Blank(before) && s == before + StripLeft(s)
  {
    before := [];
    if s != [] && IsSpace(s[0]) {
      var rest := StripLeftBlank(s[1..]);
      before := [s[0]] + rest;
      assert s == [s[0]] + s[1..];
    }
  }

  lemma {:induction false} StripRightBlank(s: string) returns (after: string)
    ensures Blank(after) && s == StripRight(s) + after
  {
    after := [];
    if s != [] && IsSpace(s[|s| - 1]) {
      var rest := StripRightBlank(s[..|s| - 1]);
      after := rest + [s[|s| - 1]];
      assert s == s[..|s| - 1] + [s[|s| - 1]];
    }
  }

  /** Every text is what stripping leaves of it, with white space around. */
  lemma {:induction false} StripParts(s: string) returns (before: string, after: string)
    ensures Blank(before) && Blank(after) && s == before + Strip(s) + after
  {
    before := StripLeftBlank(s);
    after := StripRightBlank(StripLeft(s));
  }
}
