/** File names of exported recordings, and why two different recordings never share one. */
module Naming {
  import opened Decimal

  datatype Side = SideA | SideB

  /** The label pattern: lower-case letters and digits, at least one. */
  predicate ValidLabel(name: string) {
    name != [] && forall c :: c in name ==> 'a' <= c <= 'z' || '0' <= c <= '9'
  }

  function WordLabel(n: nat): string {
    "word" + Format(n, 3)
  }

  function SpeakerLabel(n: nat): string {
    "speaker" + Format(n, 0)
  }

  function TierAFile(word: string, speaker: string, rep: int): string {
    word + "_" + (speaker + "_" + (Format(rep, 2) + ".wav"))
  }

  function SideText(side: Side): string {
    if side == SideA then "a" else "b"
  }

  function TierBFile(number: int, side: Side, rep: int): string {
    "pair" + (Format(number, 2) + "_" + (SideText(side) + "_" + (Format(rep, 2) + ".wav")))
  }

  /** The upload formats the studio accepts. */
  const FORMATS: set<string> := {"webm", "wav", "mp3", "flac"}

  datatype Tier = TierA | TierB

  function Dir(tier: Tier): string {
    if tier == TierA then "tier_a" else "tier_b"
  }

  /** The storage key of a recording's uploaded file. */
  function RawKey(code: string, tier: Tier, id: string, format: string): string {
    code + ("/" + (Dir(tier) + ("/raw/" + (id + ("." + format)))))
  }

  /** A separator that neither left part contains splits two equal texts alike. */
  lemma {:induction false} SplitUnique(a: string, b: string, x: string, y: string)
    requires '_' !in a && '_' !in x
    requires a + "_" + b == x + "_" + y
    ensures a == x && b == y
  {
    var s, t := a + "_" + b, x + "_" + y;
    assert s[|a|] == '_' && t[|x|] == '_';
    if |a| < |x| { assert false; }
    if |x| < |a| { assert false; }
    assert a == s[..|a|] && x == t[..|x|];
    assert b == s[|a| + 1..] && y == t[|x| + 1..];
  }

  lemma {:induction false} SuffixCancels(a: string, b: string, suffix: string)
    requires a + suffix == b + suffix
    ensures a == b
  {
    assert |a| == |b|;
    assert a == (a + suffix)[..|a|] && b == (b + suffix)[..|b|];
  }

  lemma {:induction false} PrefixCancels(prefix: string, a: string, b: string)
    requires prefix + a == prefix + b
    ensures a == b
  {
    assert a == (prefix + a)[|prefix|..] && b == (prefix + b)[|prefix|..];
  }

  lemma {:induction false} FormatHasNoSeparator(n: int, width: nat)
    ensures '_' !in Format(n, width)
    ensures n >= 0 ==> ValidLabel(Format(n, width))
  {
    FormatShape(n, width);
    var f := Format(n, width);
    assert f == [f[0]] + f[1..];
  }

  lemma {:induction false} AutoLabelsValid(n: nat)
    ensures ValidLabel(WordLabel(n)) && ValidLabel(SpeakerLabel(n))
  {
    FormatHasNoSeparator(n, 3);
    FormatHasNoSeparator(n, 0);
  }

  lemma {:induction false} AutoLabelsInjective(m: nat, n: nat)
    ensures WordLabel(m) == WordLabel(n) ==> m == n
    ensures SpeakerLabel(m) == SpeakerLabel(n) ==> m == n
  {
    if WordLabel(m) == WordLabel(n) {
      PrefixCancels("word", Format(m, 3), Format(n, 3));
      FormatInjective(m, n, 3);
    }
    if SpeakerLabel(m) == SpeakerLabel(n) {
      PrefixCancels("speaker", Format(m, 0), Format(n, 0));
      FormatInjective(m, n, 0);
    }
  }

  /** A Tier A name gives back its word, speaker and repetition. */
  lemma {:induction false} TierAFileInjective(w: string, s: string, r: int, w': string, s': string, r': int)
    requires ValidLabel(w) && ValidLabel(s) && ValidLabel(w') && ValidLabel(s')
    requires TierAFile(w, s, r) == TierAFile(w', s', r')
    ensures w == w' && s == s' && r == r'
  {
    SplitUnique(w, s + "_" + (Format(r, 2) + ".wav"), w', s' + "_" + (Format(r', 2) + ".wav"));
    SplitUnique(s, Format(r, 2) + ".wav", s', Format(r', 2) + ".wav");
    SuffixCancels(Format(r, 2), Format(r', 2), ".wav");
    FormatInjective(r, r', 2);
  }

  /** A Tier B name gives back its pair number, side and repetition. */
  lemma {:induction false} TierBFileInjective(n: int, side: Side, r: int, n': int, side': Side, r': int)
    requires TierBFile(n, side, r) == TierBFile(n', side', r')
    ensures n == n' && side == side' && r == r'
  {
    var tail, tail' := SideText(side) + "_" + (Format(r, 2) + ".wav"), SideText(side') + "_" + (Format(r', 2) + ".wav");
    PrefixCancels("pair", Format(n, 2) + "_" + tail, Format(n', 2) + "_" + tail');
    FormatHasNoSeparator(n, 2);
    FormatHasNoSeparator(n', 2);
    SplitUnique(Format(n, 2), tail, Format(n', 2), tail');
    assert tail[0] == SideText(side)[0] && tail'[0] == SideText(side')[0];
    SplitUnique(SideText(side), Format(r, 2) + ".wav", SideText(side'), Format(r', 2) + ".wav");
    SuffixCancels(Format(r, 2), Format(r', 2), ".wav");
    FormatInjective(n, n', 2);
    FormatInjective(r, r', 2);
  }

  // ---- Storage keys ------------------------------------------------------------------------

  /** A language code as the database column takes it, or any text without a slash. */
  predicate KeyableCode(code: string) {
    |code| <= 3 || '/' !in code
  }

  lemma {:induction false} FormatsHaveNoDot(format: string)
    requires format in FORMATS
    ensures '.' !in format
  {}

  /** In the longer of two readings of one text, the separator of the shorter one is inside the tail. */
  lemma {:induction false} DotInside(id: string, format: string, longer: string, format': string)
    requires |id| < |longer| && id + ("." + format) == longer + ("." + format')
    ensures '.' in format
  {
    var s, t := id + ("." + format), longer + ("." + format');
    assert s[|longer|] == t[|longer|] == '.';
    assert s[|longer|] == format[|longer| - |id| - 1];
  }

  /** The last dot of a key separates the identifier from the format. */
  lemma {:induction false} ExtensionUnique(id: string, format: string, id': string, format': string)
    requires '.' !in format && '.' !in format'
    requires id + ("." + format) == id' + ("." + format')
    ensures id == id' && format == format'
  {
    if |id| < |id'| { DotInside(id, format, id', format'); }
    if |id'| < |id| { DotInside(id', format', id, format); }
    var s, t := id + ("." + format), id' + ("." + format');
    assert id == s[..|id|] && id' == t[..|id'|];
    assert format == s[|id| + 1..] && format' == t[|id'| + 1..];
  }

  /** The text behind a code: a slash, and no other slash among the next three characters. */
  predicate KeyTail(rest: string) {
    |rest| >= 4 && rest[0] == '/' && rest[1] != '/' && rest[2] != '/' && rest[3] != '/'
  }

  /** A code that reaches further into the same key holds a slash and is longer by at least four. */
  lemma {:induction false} LongerCode(code: string, longer: string, rest: string, rest': string)
    requires KeyTail(rest) && KeyTail(rest') && |code| < |longer| && code + rest == longer + rest'
    ensures '/' in longer && |longer| > 3
  {
    var k, k' := code + rest, longer + rest';
    assert longer[|code|] == k'[|code|] == k[|code|] == rest[0];
    assert k[|longer|] == k'[|longer|] == rest'[0];
    assert |longer| - |code| < |rest| ==> k[|longer|] == rest[|longer| - |code|];
  }

  /** What follows the code in a key tells where the code ends. */
  lemma {:induction false} CodeUnique(code: string, code': string, rest: string, rest': string)
    requires KeyableCode(code) && KeyableCode(code') && KeyTail(rest) && KeyTail(rest')
    requires code + rest == code' + rest'
    ensures code == code' && rest == rest'
  {
    if |code| < |code'| { LongerCode(code, code', rest, rest'); }
    if |code'| < |code| { LongerCode(code', code, rest', rest); }
    assert code == (code + rest)[..|code|] && code' == (code' + rest')[..|code'|];
    PrefixCancels(code, rest, rest');
  }

  /** A key gives back the language code, the tier, the identifier and the format. */
  lemma {:induction false} RawKeyInjective(code: string, tier: Tier, id: string, format: string,
                                           code': string, tier': Tier, id': string, format': string)
    requires KeyableCode(code) && KeyableCode(code') && '.' !in format && '.' !in format'
    requires RawKey(code, tier, id, format) == RawKey(code', tier', id', format')
    ensures code == code' && tier == tier' && id == id' && format == format'
  {
    var dir, dir' := Dir(tier), Dir(tier');
    assert dir[5] == (if tier == TierA then 'a' else 'b') && dir'[5] == (if tier' == TierA then 'a' else 'b');
    var tail, tail' := "/raw/" + (id + ("." + format)), "/raw/" + (id' + ("." + format'));
    var rest, rest' := "/" + (dir + tail), "/" + (dir' + tail');
    CodeUnique(code, code', rest, rest');
    PrefixCancels("/", dir + tail, dir' + tail');
    assert dir == (dir + tail)[..6] && dir' == (dir' + tail')[..6];
    PrefixCancels(dir, tail, tail');
    PrefixCancels("/raw/", id + ("." + format), id' + ("." + format'));
    ExtensionUnique(id, format, id', format');
  }

  // ---- Reading names back ------------------------------------------------------------------

  /** The pieces of a text between separators, as `str.split` gives them. */
  function Fields(s: string, sep: char): seq<string>
    ensures |Fields(s, sep)| >= 1
  {
    if s == [] then [[]]
    else
      var rest := Fields(s[1..], sep);
      if s[0] == sep then [[]] + rest else [[s[0]] + rest[0]] + rest[1..]
  }

  lemma {:induction false} OneField(a: string, sep: char)
    requires sep !in a
    ensures Fields(a, sep) == [a]
  {
    if a != [] {
      OneField(a[1..], sep);
      assert a == [a[0]] + a[1..];
    }
  }

  lemma {:induction false} FirstField(a: string, sep: char, rest: string)
    requires sep !in a
    ensures Fields(a + ([sep] + rest), sep) == [a] + Fields(rest, sep)
  {
    var s := a + ([sep] + rest);
    if a == [] {
      assert s == [sep] + rest && s[1..] == rest;
    } else {
      FirstField(a[1..], sep, rest);
      assert s[1..] == a[1..] + ([sep] + rest);
      assert a == [a[0]] + a[1..];
    }
  }

  /** A Tier A name splits at the underscores into word, speaker and repetition. */
  lemma {:induction false} TierAFileSplits(word: string, speaker: string, rep: int)
    requires ValidLabel(word) && ValidLabel(speaker)
    ensures Fields(TierAFile(word, speaker, rep), '_') == [word, speaker, Format(rep, 2) + ".wav"]
  {
    FormatHasNoSeparator(rep, 2);
    var last := Format(rep, 2) + ".wav";
    assert TierAFile(word, speaker, rep) == word + (['_'] + (speaker + (['_'] + last)));
    FirstField(word, '_', speaker + (['_'] + last));
    FirstField(speaker, '_', last);
    OneField(last, '_');
  }

  /** A Tier B name splits into pair number, side and repetition. */
  lemma {:induction false} TierBFileSplits(number: int, side: Side, rep: int)
    ensures Fields(TierBFile(number, side, rep), '_') ==
      ["pair" + Format(number, 2), [if side == SideA then 'a' else 'b'], Format(rep, 2) + ".wav"]
  {
    FormatHasNoSeparator(number, 2);
    FormatHasNoSeparator(rep, 2);
    var pair, last := "pair" + Format(number, 2), Format(rep, 2) + ".wav";
    assert TierBFile(number, side, rep) == pair + (['_'] + (SideText(side) + (['_'] + last)));
    FirstField(pair, '_', SideText(side) + (['_'] + last));
    FirstField(SideText(side), '_', last);
    OneField(last, '_');
  }

  /** A storage key splits into the language's code, the tier's directory, `raw` and the file. */
  lemma {:induction false} RawKeySplits(code: string, tier: Tier, id: string, format: string)
    requires '/' !in code && '/' !in id && format in FORMATS
    ensures Fields(RawKey(code, tier, id, format), '/') ==
      [code, if tier == TierA then "tier_a" else "tier_b", "raw", id + ("." + format)]
  {
    var dir, file := Dir(tier), id + ("." + format);
    assert "/raw/" + file == ['/'] + ("raw" + (['/'] + file));
    PlainFile(id, format);
    FourFields(code, dir, "raw", file, '/');
  }

  lemma {:induction false} PlainFile(id: string, format: string)
    requires '/' !in id && format in FORMATS
    ensures '/' !in id + ("." + format)
  {}

  lemma {:induction false} FourFields(a: string, b: string, c: string, d: string, sep: char)
    requires sep !in a && sep !in b && sep !in c && sep !in d
    ensures Fields(a + ([sep] + (b + ([sep] + (c + ([sep] + d))))), sep) == [a, b, c, d]
  {
    FirstField(a, sep, b + ([sep] + (c + ([sep] + d))));
    FirstField(b, sep, c + ([sep] + d));
    FirstField(c, sep, d);
    OneField(d, sep);
  }

  /** An allocated label is the word and the number, padded to three digits for words. */
  lemma {:induction false} AutoLabelsRead(n: nat)
    ensures WordLabel(n)[..4] == "word" && |WordLabel(n)| >= 7
    ensures Numbers(WordLabel(n)[4..], n)
    ensures |WordLabel(n)| > 7 ==> WordLabel(n)[4] != '0'
    ensures SpeakerLabel(n)[..7] == "speaker" && Numbers(SpeakerLabel(n)[7..], n)
    ensures |SpeakerLabel(n)| > 8 ==> SpeakerLabel(n)[7] != '0'
  {
    FormatShape(n, 3);
    FormatShape(n, 0);
    FormatWidth(n, 3);
    FormatWidth(n, 0);
    assert WordLabel(n)[4..] == Format(n, 3) && SpeakerLabel(n)[7..] == Format(n, 0);
  }

  /** Decimal digits that read as the number. */
  predicate Numbers(s: string, n: nat) {
    s != [] && AllDigits(s) && Value(s) == n
  }
}
