/** Verse references: parsing what a reader wrote, printing what was found. */
module Reference {
  import opened Options
  import opened Decimal
  import opened BookNames
  import Text

  datatype Ref = Ref(book: string, chapter: nat, first: nat, last: nat)
  datatype Result = Ok(ref: Ref) | Err(text: string)

  const EN_DASH := '\U{2013}'
  const EM_DASH := '\U{2014}'

  function PlainDashes(s: string): string {
    seq(|s|, i requires 0 <= i < |s| => if s[i] == EN_DASH || s[i] == EM_DASH then '-' else s[i])
  }

  // ---- The two patterns --------------------------------------------------------------------

  /** How many leading characters satisfy `p`. */
  function Run(p: char -> bool, s: string): nat
    ensures Run(p, s) <= |s|
    ensures forall i :: 0 <= i < Run(p, s) ==> p(s[i])
    ensures Run(p, s) < |s| ==> !p(s[Run(p, s)])
  {
    if s != [] && p(s[0]) then 1 + Run(p, s[1..]) else 0
  }

  predicate IsLetter(c: char) {
    'a' <= c <= 'z' || 'A' <= c <= 'Z'
  }

  /** The text after an optional letter. */
  function AfterLetter(s: string): string {
    if s != [] && IsLetter(s[0]) then s[1..] else s
  }

  /** A leading number and the text behind it. */
  function Number(s: string): Option<(nat, string)> {
    var n := Run(IsDigit, s);
    if n == 0 then None else
      assert AllDigits(s[..n]);
      Some((Value(s[..n]), s[n..]))
  }

  /** The text after a given leading character. */
  function After(c: char, s: string): Option<string> {
    if s != [] && s[0] == c then Some(s[1..]) else None
  }

  /** A verse number with an optional letter. */
  function Verse(s: string): Option<(nat, string)> {
    var n := Number(s);
    if n.None? then None else Some((n.value.0, AfterLetter(n.value.1)))
  }

  /** What must follow the book: space, chapter, colon, verse, and in the ranged pattern a second verse. */
  function MatchTail(s: string, ranged: bool): Option<(nat, nat, nat)> {
    var spaces := Run(Text.IsSpace, s);
    if spaces == 0 then None else MatchChapter(s[spaces..], ranged)
  }

  function MatchChapter(s: string, ranged: bool): Option<(nat, nat, nat)> {
    var chapter := Number(s);
    if chapter.None? then None
    else
      var colon := After(':', chapter.value.1);
      if colon.None? then None
      else
        var verses := MatchVerses(colon.value, ranged);
        if verses.None? then None else Some((chapter.value.0, verses.value.0, verses.value.1))
  }

  function MatchVerses(s: string, ranged: bool): Option<(nat, nat)> {
    var first := Verse(s);
    if first.None? then None
    else if !ranged then (if first.value.1 == [] then Some((first.value.0, first.value.0)) else None)
    else
      var dash := After('-', first.value.1);
      if dash.None? then None
      else
        var last := Verse(dash.value);
        if last.None? || last.value.1 != [] then None else Some((first.value.0, last.value.0))
  }

  predicate RangedTail(t: string) {
    MatchTail(t, true).Some?
  }

  predicate SingleTail(t: string) {
    MatchTail(t, false).Some?
  }

  /** The shortest non-empty piece without a line break, at least `k` long, that a fitting tail follows. */
  function FirstSplit(s: string, fits: string -> bool, k: nat): Option<nat>
    requires k <= |s|
    ensures FirstSplit(s, fits, k).Some? ==>
      1 <= FirstSplit(s, fits, k).value <= |s| && k <= FirstSplit(s, fits, k).value
        && fits(s[FirstSplit(s, fits, k).value..])
    decreases |s| - k
  {
    if k >= 1 && fits(s[k..]) then Some(k)
    else if k == |s| || s[k] == '\n' then None
    else FirstSplit(s, fits, k + 1)
  }

  function Parse(table: seq<(string, string)>, lower: string -> string, text: string): Result {
    var s := PlainDashes(Text.Strip(text));
    var ranged := FirstSplit(s, RangedTail, 0);
    if ranged.Some? then
      var t := MatchTail(s[ranged.value..], true).value;
      Ok(Ref(Normalize(table, lower, s[..ranged.value]), t.0, t.1, t.2))
    else
      var single := FirstSplit(s, SingleTail, 0);
      if single.Some? then
        var t := MatchTail(s[single.value..], false).value;
        Ok(Ref(Normalize(table, lower, s[..single.value]), t.0, t.1, t.2))
      else Err(s)
  }

  // ---- What may be written -----------------------------------------------------------------

  /** A range of verses: a dash of any of three kinds, the last verse, and a letter behind it or none. */
  datatype Range = Range(dash: char, last: string, letter: string)

  /** The pieces of a written reference, in order. */
  datatype Written = Written(before: string, book: string, spaces: string, chapter: string,
                             first: string, letter: string, range: Option<Range>, after: string)

  predicate Numeral(s: string) {
    s != [] && AllDigits(s)
  }

  predicate OptionalLetter(s: string) {
    |s| <= 1 && forall c :: c in s ==> 'a' <= c <= 'z' || 'A' <= c <= 'Z'
  }

  /** A hyphen, an en dash or an em dash. */
  predicate IsDash(c: char) {
    c == '-' || c == '\U{2013}' || c == '\U{2014}'
  }

  predicate WellWritten(w: Written) {
    && Text.Blank(w.before) && Text.Blank(w.after)
    && w.book != [] && Text.Trimmed(w.book) && '\n' !in w.book
    && TailWritten(w)
  }

  predicate TailWritten(w: Written) {
    && w.spaces != [] && Text.Blank(w.spaces)
    && Numeral(w.chapter) && Numeral(w.first) && OptionalLetter(w.letter)
    && (w.range.Some? ==> WellRanged(w.range.value))
  }

  predicate WellRanged(r: Range) {
    IsDash(r.dash) && Numeral(r.last) && OptionalLetter(r.letter)
  }

  function RangeText(range: Option<Range>): string {
    if range.None? then [] else [range.value.dash] + (range.value.last + range.value.letter)
  }

  function VersesText(w: Written): string {
    w.first + (w.letter + RangeText(w.range))
  }

  /** All behind the book. */
  function TailText(w: Written): string {
    w.spaces + (w.chapter + ([':'] + VersesText(w)))
  }

  function TextOf(w: Written): string {
    w.before + (w.book + TailText(w)) + w.after
  }

  /** `plain` is the text with every dash read as a hyphen. */
  predicate Hyphened(written: string, plain: string) {
    && |plain| == |written|
    && forall i :: 0 <= i < |written| ==> plain[i] == if IsDash(written[i]) then '-' else written[i]
  }

  /** What a written reference names when its book is called `name`. */
  function Meaning(w: Written, name: string): Ref
    requires WellWritten(w)
  {
    var first := Value(w.first);
    Ref(name, Value(w.chapter), first, if w.range.Some? then Value(w.range.value.last) else first)
  }

  // ---- Reading the pieces ------------------------------------------------------------------

  lemma {:induction false} RunIs(p: char -> bool, a: string, b: string)
    requires forall c :: c in a ==> p(c)
    requires b != [] ==> !p(b[0])
    ensures Run(p, a + b) == |a|
  {
    assert forall i :: 0 <= i < |a| ==> (a + b)[i] == a[i];
    assert b != [] ==> (a + b)[|a|] == b[0];
  }

  lemma {:induction false} NumberReads(d: string, rest: string)
    requires Numeral(d) && (rest != [] ==> !IsDigit(rest[0]))
    ensures Number(d + rest) == Some((Value(d), rest))
  {
    RunIs(IsDigit, d, rest);
    assert (d + rest)[..|d|] == d && (d + rest)[|d|..] == rest;
  }

  lemma {:induction false} VerseReads(d: string, letter: string, rest: string)
    requires Numeral(d) && OptionalLetter(letter)
    requires rest != [] ==> !IsDigit(rest[0]) && !IsLetter(rest[0])
    ensures Verse(d + (letter + rest)) == Some((Value(d), rest))
  {
    if letter == [] {
      assert letter + rest == rest;
    } else {
      assert letter[0] in letter && letter == [letter[0]] && (letter + rest)[1..] == rest;
    }
    NumberReads(d, letter + rest);
  }

  /** The same reference with its dash written as a hyphen. */
  function WithHyphen(w: Written): Written {
    w.(range := if w.range.None? then None else Some(w.range.value.(dash := '-')))
  }

  lemma {:induction false} VersesRead(w: Written, ranged: bool)
    requires WellWritten(w) && (w.range.Some? ==> w.range.value.dash == '-')
    ensures MatchVerses(VersesText(w), ranged) ==
      var r := Meaning(w, []); if ranged == w.range.Some? then Some((r.first, r.last)) else None
  {
    VerseReads(w.first, w.letter, RangeText(w.range));
    if w.range.Some? {
      var r := w.range.value;
      assert RangeText(w.range)[1..] == r.last + r.letter == r.last + (r.letter + []);
      VerseReads(r.last, r.letter, []);
    }
  }

  lemma {:induction false} ChapterReads(w: Written, ranged: bool)
    requires WellWritten(w) && (w.range.Some? ==> w.range.value.dash == '-')
    ensures MatchChapter(w.chapter + ([':'] + VersesText(w)), ranged) ==
      var r := Meaning(w, []); if ranged == w.range.Some? then Some((r.chapter, r.first, r.last)) else None
  {
    var behind := [':'] + VersesText(w);
    NumberReads(w.chapter, behind);
    assert behind[1..] == VersesText(w);
    VersesRead(w, ranged);
  }

  /** The tail is read as written, by the ranged pattern exactly when a range is written. */
  lemma {:induction false} TailReads(w: Written, ranged: bool)
    requires WellWritten(w) && (w.range.Some? ==> w.range.value.dash == '-')
    ensures MatchTail(TailText(w), ranged) ==
      var r := Meaning(w, []); if ranged == w.range.Some? then Some((r.chapter, r.first, r.last)) else None
  {
    var behind := w.chapter + ([':'] + VersesText(w));
    assert behind[0] == w.chapter[0] && w.chapter[0] in w.chapter;
    RunIs(Text.IsSpace, w.spaces, behind);
    assert TailText(w)[|w.spaces|..] == behind;
    ChapterReads(w, ranged);
  }

  /** Where the tail pattern matches, spaces and digits lead up to a colon, and no space follows it. */
  lemma {:induction false} TailShape(t: string, ranged: bool) returns (spaces: nat, colon: nat)
    requires MatchTail(t, ranged).Some?
    ensures 0 < spaces < colon < |t|
    ensures forall i :: 0 <= i < spaces ==> Text.IsSpace(t[i])
    ensures forall i :: spaces <= i < colon ==> IsDigit(t[i])
    ensures forall i :: colon <= i < |t| ==> !Text.IsSpace(t[i])
  {
    spaces := Run(Text.IsSpace, t);
    var u := t[spaces..];
    var n := ChapterShape(u, ranged);
    colon := spaces + n;
    forall i | spaces <= i < |t| ensures t[i] == u[i - spaces] {}
  }

  lemma {:induction false} ChapterShape(u: string, ranged: bool) returns (colon: nat)
    requires MatchChapter(u, ranged).Some?
    ensures 0 < colon < |u|
    ensures forall i :: 0 <= i < colon ==> IsDigit(u[i])
    ensures forall i :: colon <= i < |u| ==> !Text.IsSpace(u[i])
  {
    colon := Run(IsDigit, u);
    assert u[colon] == ':';
    var v := u[colon..][1..];
    VersesHaveNoSpace(v, ranged);
    forall i | colon < i < |u| ensures !Text.IsSpace(u[i]) {
      assert u[i] == v[i - colon - 1];
    }
  }

  lemma {:induction false} VerseHasNoSpace(s: string) returns (k: nat)
    requires Verse(s).Some?
    ensures k <= |s| && Verse(s).value.1 == s[k..] && forall i :: 0 <= i < k ==> !Text.IsSpace(s[i])
  {
    var n := Run(IsDigit, s);
    k := if n < |s| && IsLetter(s[n]) then n + 1 else n;
    assert Verse(s).value.1 == s[k..];
  }

  lemma {:induction false} VersesHaveNoSpace(s: string, ranged: bool)
    requires MatchVerses(s, ranged).Some?
    ensures forall i :: 0 <= i < |s| ==> !Text.IsSpace(s[i])
  {
    var k := VerseHasNoSpace(s);
    if ranged {
      var d := s[k..][1..];
      var l := VerseHasNoSpace(d);
      forall i | k <= i < |s| ensures !Text.IsSpace(s[i]) {
        if i > k { assert s[i] == d[i - k - 1]; } else { assert s[k..][0] == s[k]; }
      }
    }
  }

  /** The tail pattern cannot start in front of a word that a space follows. */
  lemma {:induction false} WordBeforeSpace(t: string, ranged: bool, p: nat)
    requires 1 <= p < |t| && Text.IsSpace(t[p]) && !Text.IsSpace(t[p - 1])
    ensures MatchTail(t, ranged).None?
  {
    if MatchTail(t, ranged).Some? {
      var spaces, colon := TailShape(t, ranged);
      assert false;
    }
  }

  /** Behind the white space no further white space follows. */
  lemma {:induction false} NoSpaceBehind(w: Written)
    requires WellWritten(w)
    ensures forall c :: c in w.chapter + ([':'] + VersesText(w)) ==> !Text.IsSpace(c)
  {
    forall c | c in w.chapter + ([':'] + VersesText(w)) ensures !Text.IsSpace(c) {
      if c in RangeText(w.range) {
        var r := w.range.value;
        assert c == r.dash || c in r.last || c in r.letter;
      }
    }
  }

  /** No piece shorter than the book is followed by the tail pattern. */
  lemma {:induction false} NoEarlierSplit(name: string, w: Written, ranged: bool, k: nat)
    requires WellWritten(w) && name != [] && Text.Trimmed(name) && k < |name|
    ensures MatchTail((name + TailText(w))[k..], ranged).None?
  {
    var s := name + TailText(w);
    var t, p := s[k..], |name| - k;
    assert w.spaces[0] in w.spaces;
    assert t[p] == s[|name|] == w.spaces[0] && t[p - 1] == s[|name| - 1] == name[|name| - 1];
    WordBeforeSpace(t, ranged, p);
  }

  /** No single verse is taken for a range, wherever the pattern is tried. */
  lemma {:induction false} NoRangeLater(name: string, w: Written, k: nat)
    requires WellWritten(w) && w.range.None? && |name| <= k <= |name + TailText(w)|
    ensures MatchTail((name + TailText(w))[k..], true).None?
  {
    var s, n := name + TailText(w), k - |name|;
    if n < |w.spaces| {
      var v := w.(spaces := w.spaces[n..]);
      assert Text.Blank(v.spaces) by { assert forall c :: c in v.spaces ==> c in w.spaces; }
      assert s[k..] == TailText(v);
      TailReads(v, true);
    } else if k < |s| {
      var behind := w.chapter + ([':'] + VersesText(w));
      assert s[k..][0] == s[k] == TailText(w)[n] == behind[n - |w.spaces|];
      assert behind[n - |w.spaces|] in behind;
      NoSpaceBehind(w);
    }
  }

  lemma {:induction false} SplitAt(s: string, fits: string -> bool, k: nat, at: nat)
    requires k <= at <= |s| && at >= 1 && fits(s[at..])
    requires forall j :: k <= j < at ==> !fits(s[j..]) && s[j] != '\n'
    ensures FirstSplit(s, fits, k) == Some(at)
    decreases at - k
  {
    if k < at { SplitAt(s, fits, k + 1, at); }
  }

  lemma {:induction false} NoSplit(s: string, fits: string -> bool, k: nat)
    requires k <= |s| && forall j :: k <= j <= |s| && j >= 1 ==> !fits(s[j..])
    ensures FirstSplit(s, fits, k) == None
    decreases |s| - k
  {
    if k < |s| && s[k] != '\n' { NoSplit(s, fits, k + 1); }
  }

  /** What the parser works on: the text without the white space around it, dashes read as hyphens. */
  lemma {:induction false} HyphenedPieces(w: Written, name: string)
    requires WellWritten(w) && Hyphened(w.book, name)
    ensures PlainDashes(Text.Strip(TextOf(w))) == name + TailText(WithHyphen(w))
  {
    var core := w.book + TailText(w);
    CoreTrimmed(w);
    Text.StripPads(w.before, core, w.after);
    PlainDashesAppend(w.book, TailText(w));
    assert PlainDashes(w.book) == name;
    TailHyphened(w);
  }

  lemma {:induction false} PlainDashesAppend(a: string, b: string)
    ensures PlainDashes(a + b) == PlainDashes(a) + PlainDashes(b)
  {
    var s, t := PlainDashes(a + b), PlainDashes(a) + PlainDashes(b);
    forall i | 0 <= i < |s| ensures s[i] == t[i] {
      assert (a + b)[i] == if i < |a| then a[i] else b[i - |a|];
    }
  }

  lemma {:induction false} NoDashes(s: string)
    requires forall c :: c in s ==> c != EN_DASH && c != EM_DASH
    ensures PlainDashes(s) == s
  {
    assert forall i :: 0 <= i < |s| ==> s[i] in s;
  }

  lemma {:induction false} TailHyphened(w: Written)
    requires WellWritten(w)
    ensures PlainDashes(TailText(w)) == TailText(WithHyphen(w))
  {
    NoDashes(w.spaces);
    NoDashes(w.chapter);
    NoDashes([':']);
    NoDashes(w.first);
    NoDashes(w.letter);
    PlainDashesAppend(w.spaces, w.chapter + ([':'] + VersesText(w)));
    PlainDashesAppend(w.chapter, [':'] + VersesText(w));
    PlainDashesAppend([':'], VersesText(w));
    PlainDashesAppend(w.first, w.letter + RangeText(w.range));
    PlainDashesAppend(w.letter, RangeText(w.range));
    if w.range.Some? {
      var r := w.range.value;
      NoDashes(r.last);
      NoDashes(r.letter);
      PlainDashesAppend([r.dash], r.last + r.letter);
      PlainDashesAppend(r.last, r.letter);
      assert PlainDashes([r.dash]) == ['-'];
    }
  }

  lemma {:induction false} CoreTrimmed(w: Written)
    requires WellWritten(w)
    ensures var core := w.book + TailText(w); core != [] && Text.Trimmed(core)
  {
    var behind := w.chapter + ([':'] + VersesText(w));
    var core := w.book + TailText(w);
    NoSpaceBehind(w);
    assert core[|core| - 1] == behind[|behind| - 1];
    assert behind[|behind| - 1] in behind;
  }

  /**
    Every well-written reference is read as what it says, whatever white space, dash or letters it
    is written with. `name` is its book with dashes read as hyphens, the book itself if it has none.
  */
  lemma {:induction false} ParseReads(table: seq<(string, string)>, lower: string -> string, w: Written, name: string)
    requires WellWritten(w) && Hyphened(w.book, name)
    ensures Parse(table, lower, TextOf(w)) == Ok(Meaning(w, Normalize(table, lower, name)))
  {
    var p := WithHyphen(w);
    var s, n := name + TailText(p), |name|;
    HyphenedPieces(w, name);
    assert Text.Trimmed(name) && '\n' !in name;
    TailReads(p, true);
    TailReads(p, false);
    assert s[n..] == TailText(p) && s[..n] == name;
    forall j | 0 <= j < n ensures !RangedTail(s[j..]) && !SingleTail(s[j..]) && s[j] != '\n' {
      NoEarlierSplit(name, p, true, j);
      NoEarlierSplit(name, p, false, j);
      assert s[j] == name[j];
    }
    if w.range.None? {
      forall j | 1 <= j <= |s| ensures !RangedTail(s[j..]) {
        if j >= n { NoRangeLater(name, p, j); }
      }
      NoSplit(s, RangedTail, 0);
      SplitAt(s, SingleTail, 0, n);
    } else {
      SplitAt(s, RangedTail, 0, n);
    }
  }

  // ---- Printing ----------------------------------------------------------------------------

  function PrintTail(chapter: nat, first: nat, last: nat): string {
    [' '] + Digits(chapter) + [':'] + Digits(first) + (if first == last then [] else ['-'] + Digits(last))
  }

  function Print(r: Ref): string {
    r.book + PrintTail(r.chapter, r.first, r.last)
  }

  /** A book name that survives inside a printed reference. */
  predicate PlainName(book: string) {
    book != [] && Text.Trimmed(book) && forall c :: c in book ==> c != '\n' && c != EN_DASH && c != EM_DASH
  }

  /** The printed reference as one that may be written. */
  function Printed(r: Ref): Written {
    Written([], r.book, [' '], Digits(r.chapter), Digits(r.first), [],
            if r.first == r.last then None else Some(Range('-', Digits(r.last), [])), [])
  }

  lemma {:induction false} PrintedText(r: Ref)
    requires PlainName(r.book)
    ensures WellWritten(Printed(r)) && Meaning(Printed(r), r.book) == r
    ensures TextOf(Printed(r)) == Print(r)
  {
    DigitsRoundTrip(r.chapter);
    DigitsRoundTrip(r.first);
    DigitsRoundTrip(r.last);
    PrintedTail(Printed(r), r);
    var w := Printed(r);
    assert TextOf(w) == w.book + TailText(w);
  }

  lemma {:induction false} PrintedTail(w: Written, r: Ref)
    requires w == Printed(r)
    ensures TailText(w) == PrintTail(r.chapter, r.first, r.last)
  {
    var last := if r.first == r.last then [] else ['-'] + Digits(r.last);
    if r.first != r.last { assert Digits(r.last) + [] == Digits(r.last); }
    assert RangeText(w.range) == last;
    Regrouped(w.chapter, w.first, last);
  }

  lemma {:induction false} Regrouped(chapter: string, first: string, last: string)
    ensures [' '] + (chapter + ([':'] + (first + ([] + last)))) == [' '] + chapter + [':'] + first + last
  {
    assert [] + last == last;
  }

  /**
    Parsing undoes printing: for any table and lower-casing, any reference whose book is a plain name
    that normalization leaves alone.
  */
  lemma {:induction false} ParseUndoesPrint(table: seq<(string, string)>, lower: string -> string, r: Ref)
    requires PlainName(r.book) && Normalize(table, lower, r.book) == r.book
    ensures Parse(table, lower, Print(r)) == Ok(r)
  {
    PrintedText(r);
    assert forall i :: 0 <= i < |r.book| ==> r.book[i] in r.book;
    ParseReads(table, lower, Printed(r), r.book);
  }

  // ---- Printing what was parsed ------------------------------------------------------------

  lemma {:induction false} SplitIsShortest(s: string, fits: string -> bool, k: nat, j: nat)
    requires k <= |s| && FirstSplit(s, fits, k).Some?
    requires k <= j < FirstSplit(s, fits, k).value
    ensures s[j] != '\n' && (j >= 1 ==> !fits(s[j..]))
    decreases |s| - k
  {
    if k < j { SplitIsShortest(s, fits, k + 1, j); }
  }

  /** One more space in front does not disturb the tail pattern. */
  lemma {:induction false} MoreSpace(s: string, ranged: bool, k: nat)
    requires k < |s| && Text.IsSpace(s[k]) && MatchTail(s[k + 1..], ranged).Some?
    ensures MatchTail(s[k..], ranged).Some?
  {
    var t, u := s[k..], s[k + 1..];
    var n := Run(Text.IsSpace, u);
    assert t[0] == s[k] && t[1..] == u;
    assert Run(Text.IsSpace, t) == n + 1;
    assert t[n + 1..] == u[n..];
  }

  lemma {:induction false} PieceIsPlain(s: string, fits: string -> bool)
    requires Text.Trimmed(s) && forall c :: c in s ==> c != EN_DASH && c != EM_DASH
    requires FirstSplit(s, fits, 0).Some?
    requires forall k: nat :: k < |s| && Text.IsSpace(s[k]) && fits(s[k + 1..]) ==> fits(s[k..])
    ensures PlainName(s[..FirstSplit(s, fits, 0).value])
  {
    var k := FirstSplit(s, fits, 0).value;
    if Text.IsSpace(s[k - 1]) {
      SplitIsShortest(s, fits, 0, k - 1);
    }
    forall c | c in s[..k] ensures c != '\n' && c != EN_DASH && c != EM_DASH {
      var i :| 0 <= i < k && s[i] == c;
      assert s[i] in s;
      SplitIsShortest(s, fits, 0, i);
    }
  }

  lemma {:induction false} PlainDashesTrimmed(text: string)
    ensures var s := PlainDashes(Text.Strip(text));
      Text.Trimmed(s) && forall c :: c in s ==> c != EN_DASH && c != EM_DASH
  {
    Text.StripTrims(text);
  }

  /** The piece of the text that the parser took for the book. */
  function Piece(text: string): Option<string> {
    var s := PlainDashes(Text.Strip(text));
    var ranged, single := FirstSplit(s, RangedTail, 0), FirstSplit(s, SingleTail, 0);
    if ranged.Some? then Some(s[..ranged.value]) else if single.Some? then Some(s[..single.value]) else None
  }

  lemma {:induction false} PieceNamesBook(table: seq<(string, string)>, lower: string -> string, text: string)
    ensures Parse(table, lower, text).Ok? <==> Piece(text).Some?
    ensures Piece(text).Some? ==>
      PlainName(Piece(text).value) && Parse(table, lower, text).ref.book == Normalize(table, lower, Piece(text).value)
  {
    var s := PlainDashes(Text.Strip(text));
    PlainDashesTrimmed(text);
    forall k: nat | k < |s| && Text.IsSpace(s[k])
      ensures RangedTail(s[k + 1..]) ==> RangedTail(s[k..])
      ensures SingleTail(s[k + 1..]) ==> SingleTail(s[k..])
    {
      if RangedTail(s[k + 1..]) { MoreSpace(s, true, k); }
      if SingleTail(s[k + 1..]) { MoreSpace(s, false, k); }
    }
    if FirstSplit(s, RangedTail, 0).Some? { PieceIsPlain(s, RangedTail); }
    else if FirstSplit(s, SingleTail, 0).Some? { PieceIsPlain(s, SingleTail); }
  }

  /**
    Printing a parsed reference and parsing it again changes nothing, whatever was written, provided
    the table's own names are plain and normalize to themselves.
  */
  lemma {:induction false} PrintUndoesParse(table: seq<(string, string)>, lower: string -> string, text: string)
    requires forall i :: 0 <= i < |table| ==> PlainName(table[i].1) && Normalize(table, lower, table[i].1) == table[i].1
    requires Parse(table, lower, text).Ok?
    ensures Parse(table, lower, Print(Parse(table, lower, text).ref)) == Parse(table, lower, text)
  {
    var r := Parse(table, lower, text).ref;
    PieceNamesBook(table, lower, text);
    NormalizeChooses(table, lower, Piece(text).value);
    ParseUndoesPrint(table, lower, r);
  }

  // ---- Nothing else is read ----------------------------------------------------------------

  lemma {:induction false} NumberPieces(s: string) returns (d: string)
    requires Number(s).Some?
    ensures Numeral(d) && s == d + Number(s).value.1
  {
    d := s[..Run(IsDigit, s)];
  }

  lemma {:induction false} VersePieces(s: string) returns (d: string, letter: string)
    requires Verse(s).Some?
    ensures Numeral(d) && OptionalLetter(letter) && s == d + (letter + Verse(s).value.1)
  {
    d := NumberPieces(s);
    var rest := Number(s).value.1;
    letter := if rest != [] && IsLetter(rest[0]) then rest[..1] else [];
    assert rest == letter + AfterLetter(rest);
  }

  lemma {:induction false} VersesPieces(s: string, ranged: bool)
    returns (first: string, letter: string, range: Option<Range>)
    requires MatchVerses(s, ranged).Some?
    ensures Numeral(first) && OptionalLetter(letter) && (range.Some? <==> ranged)
    ensures range.Some? ==> WellRanged(range.value) && range.value.dash == '-'
    ensures s == first + (letter + RangeText(range))
  {
    first, letter := VersePieces(s);
    range := None;
    if ranged {
      var rest := Verse(s).value.1;
      var last, lastLetter := VersePieces(rest[1..]);
      range := Some(Range('-', last, lastLetter));
      assert lastLetter + [] == lastLetter;
      assert rest == ['-'] + rest[1..];
    }
  }

  /** What the tail pattern matches is a written tail. */
  lemma {:induction false} TailPieces(t: string, ranged: bool) returns (w: Written)
    requires MatchTail(t, ranged).Some?
    ensures TailWritten(w) && TailText(w) == t
    ensures w.range.Some? ==> w.range.value.dash == '-'
  {
    var n := Run(Text.IsSpace, t);
    w := ChapterPieces(t[..n], t[n..], ranged);
    assert t == t[..n] + t[n..];
  }

  lemma {:induction false} ChapterPieces(spaces: string, u: string, ranged: bool) returns (w: Written)
    requires spaces != [] && Text.Blank(spaces) && MatchChapter(u, ranged).Some?
    ensures TailWritten(w) && TailText(w) == spaces + u
    ensures w.range.Some? ==> w.range.value.dash == '-'
  {
    var chapter := NumberPieces(u);
    var rest := Number(u).value.1;
    var first, letter, range := VersesPieces(rest[1..], ranged);
    w := Written([], [], spaces, chapter, first, letter, range, []);
    assert rest == [':'] + rest[1..] && rest[1..] == VersesText(w);
  }

  /** A piece without hyphens was written as it is read. */
  lemma {:induction false} LiftPiece(c: string, a: string, b: string) returns (rest: string)
    requires PlainDashes(c) == a + b && '-' !in a
    ensures c == a + rest && PlainDashes(rest) == b
  {
    rest := c[|a|..];
    forall i | 0 <= i < |a| ensures c[i] == a[i] {
      assert PlainDashes(c)[i] == (a + b)[i] == a[i] && a[i] in a;
    }
    forall i | 0 <= i < |b| ensures PlainDashes(rest)[i] == b[i] {
      assert PlainDashes(c)[|a| + i] == (a + b)[|a| + i];
    }
  }

  lemma {:induction false} LiftRange(c: string, range: Option<Range>) returns (written: Option<Range>)
    requires PlainDashes(c) == RangeText(range)
    requires range.Some? ==> WellRanged(range.value) && range.value.dash == '-'
    ensures written.Some? ==> WellRanged(written.value)
    ensures c == RangeText(written)
  {
    written := None;
    if range.Some? {
      var r := range.value;
      var verses := r.last + r.letter;
      assert RangeText(range)[0] == '-' && RangeText(range)[1..] == verses;
      assert PlainDashes(c)[0] == '-' && PlainDashes(c[1..]) == PlainDashes(c)[1..];
      var rest := LiftPiece(c[1..], verses, []);
      assert verses + [] == verses && rest == [];
      written := Some(r.(dash := c[0]));
    }
  }

  /** A text that reads as a written tail is one. */
  lemma {:induction false} LiftTail(c: string, w: Written) returns (v: Written)
    requires TailWritten(w) && (w.range.Some? ==> w.range.value.dash == '-') && PlainDashes(c) == TailText(w)
    ensures TailWritten(v) && TailText(v) == c
  {
    var c1 := LiftPiece(c, w.spaces, w.chapter + ([':'] + VersesText(w)));
    var c2 := LiftPiece(c1, w.chapter, [':'] + VersesText(w));
    var c3 := LiftPiece(c2, [':'], VersesText(w));
    var c4 := LiftPiece(c3, w.first, w.letter + RangeText(w.range));
    var c5 := LiftPiece(c4, w.letter, RangeText(w.range));
    var range := LiftRange(c5, w.range);
    v := w.(range := range);
  }

  lemma {:induction false} ReadIsWritten(text: string, k: nat, ranged: bool) returns (w: Written)
    requires var s := PlainDashes(Text.Strip(text));
      k <= |s| && PlainName(s[..k]) && MatchTail(s[k..], ranged).Some?
    ensures WellWritten(w) && TextOf(w) == text
  {
    var before, after := Text.StripParts(text);
    w := CoreIsWritten(before, Text.Strip(text), k, after, ranged);
  }

  lemma {:induction false} CoreIsWritten(before: string, core: string, k: nat, after: string, ranged: bool)
    returns (w: Written)
    requires Text.Blank(before) && Text.Blank(after) && k <= |core|
    requires PlainName(PlainDashes(core)[..k]) && MatchTail(PlainDashes(core)[k..], ranged).Some?
    ensures WellWritten(w) && TextOf(w) == before + core + after
  {
    BookPiece(core, k);
    PlainDashesDrop(core, k);
    var tail := TailLifted(core[k..], PlainDashes(core)[k..], ranged);
    w := Assembled(before, core, k, after, tail);
  }

  lemma {:induction false} PlainDashesDrop(core: string, k: nat)
    requires k <= |core|
    ensures PlainDashes(core[k..]) == PlainDashes(core)[k..]
  {}

  lemma {:induction false} TailLifted(c: string, t: string, ranged: bool) returns (tail: Written)
    requires MatchTail(t, ranged).Some? && PlainDashes(c) == t
    ensures TailWritten(tail) && TailText(tail) == c
  {
    var read := TailPieces(t, ranged);
    tail := LiftTail(c, read);
  }

  lemma {:induction false} Assembled(before: string, core: string, k: nat, after: string, tail: Written)
    returns (w: Written)
    requires Text.Blank(before) && Text.Blank(after) && k <= |core|
    requires core[..k] != [] && Text.Trimmed(core[..k]) && '\n' !in core[..k]
    requires TailWritten(tail) && TailText(tail) == core[k..]
    ensures WellWritten(w) && TextOf(w) == before + core + after
  {
    w := tail.(before := before, book := core[..k], after := after);
    assert TailText(w) == TailText(tail) && core == w.book + TailText(w);
  }

  lemma {:induction false} BookPiece(core: string, k: nat)
    requires k <= |core| && PlainName(PlainDashes(core)[..k])
    ensures core[..k] != [] && Text.Trimmed(core[..k]) && '\n' !in core[..k]
  {
    var name, book := PlainDashes(core)[..k], core[..k];
    forall i | 0 <= i < |book|
      ensures book[i] != '\n' && (Text.IsSpace(book[i]) ==> book[i] == name[i])
    {
      assert name[i] in name;
    }
  }

  /** Exactly the well-written references are read; what they say, `ParseReads` tells. */
  lemma {:induction false} ParsesIffWritten(table: seq<(string, string)>, lower: string -> string, text: string)
    ensures Parse(table, lower, text).Ok? <==> exists w :: WellWritten(w) && TextOf(w) == text
  {
    var s := PlainDashes(Text.Strip(text));
    if w :| WellWritten(w) && TextOf(w) == text {
      ParseReads(table, lower, w, PlainDashes(w.book));
    }
    PieceNamesBook(table, lower, text);
    var ranged, single := FirstSplit(s, RangedTail, 0), FirstSplit(s, SingleTail, 0);
    if ranged.Some? {
      var w := ReadIsWritten(text, ranged.value, true);
    } else if single.Some? {
      var w := ReadIsWritten(text, single.value, false);
    }
  }
}
