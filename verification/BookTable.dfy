/** The table of book names, and that every corpus name in it is found again under its own name. */
module BookTable {
  import opened Options
  import opened Similarity
  import opened BookNames
  import opened Reference
  import Text

  // Written names and abbreviations with their corpus names, in table order.

  const LAW: seq<(string, string)> :=
    [("genesis", "Genesis"), ("gen", "Genesis"), ("exodus", "Exodus"), ("exod", "Exodus"), ("ex", "Exodus"),
     ("leviticus", "Leviticus"), ("lev", "Leviticus"), ("numbers", "Numbers"), ("num", "Numbers"),
     ("deuteronomy", "Deuteronomy"), ("deut", "Deuteronomy")]

  const FORMER: seq<(string, string)> :=
    [("joshua", "Joshua"), ("josh", "Joshua"), ("judges", "Judges"), ("judg", "Judges"), ("ruth", "Ruth")]

  const SAMUEL: seq<(string, string)> :=
    [("1 samuel", "1_Samuel"), ("1samuel", "1_Samuel"), ("1sam", "1_Samuel"), ("2 samuel", "2_Samuel"),
     ("2samuel", "2_Samuel"), ("2sam", "2_Samuel")]

  const KINGS: seq<(string, string)> :=
    [("1 kings", "1_Kings"), ("1kings", "1_Kings"), ("1kgs", "1_Kings"), ("2 kings", "2_Kings"),
     ("2kings", "2_Kings"), ("2kgs", "2_Kings")]

  const LATER: seq<(string, string)> :=
    [("isaiah", "Isaiah"), ("isa", "Isaiah"), ("jeremiah", "Jeremiah"), ("jer", "Jeremiah"),
     ("ezekiel", "Ezekiel"), ("ezek", "Ezekiel"), ("hosea", "Hosea"), ("hos", "Hosea"), ("joel", "Joel"),
     ("amos", "Amos")]

  const TWELVE: seq<(string, string)> :=
    [("obadiah", "Obadiah"), ("obad", "Obadiah"), ("jonah", "Jonah"), ("micah", "Micah"), ("mic", "Micah"),
     ("nahum", "Nahum"), ("nah", "Nahum"), ("habakkuk", "Habakkuk"), ("hab", "Habakkuk")]

  const SCROLLS: seq<(string, string)> :=
    [("zephaniah", "Zephaniah"), ("zeph", "Zephaniah"), ("haggai", "Haggai"), ("hag", "Haggai"),
     ("zechariah", "Zechariah"), ("zech", "Zechariah"), ("malachi", "Malachi"), ("mal", "Malachi")]

  const POETRY: seq<(string, string)> :=
    [("psalms", "Psalms"), ("psalm", "Psalms"), ("ps", "Psalms"), ("job", "Job"), ("proverbs", "Proverbs"),
     ("prov", "Proverbs"), ("ecclesiastes", "Ecclesiastes"), ("eccl", "Ecclesiastes")]

  const SONGS: seq<(string, string)> :=
    [("song of songs", "Song_of_songs"), ("song", "Song_of_songs"), ("lamentations", "Lamentations"),
     ("lam", "Lamentations")]

  const EXILE: seq<(string, string)> :=
    [("esther", "Esther"), ("esth", "Esther"), ("daniel", "Daniel"), ("dan", "Daniel"), ("ezra", "Ezra"),
     ("nehemiah", "Nehemiah"), ("neh", "Nehemiah")]

  const CHRONICLES: seq<(string, string)> :=
    [("1 chronicles", "1_Chronicles"), ("1chronicles", "1_Chronicles"), ("2 chronicles", "2_Chronicles"),
     ("2chronicles", "2_Chronicles")]

  const BOOK_NAMES: seq<(string, string)> :=
    LAW + FORMER + SAMUEL + KINGS + LATER + TWELVE + SCROLLS + POETRY + SONGS + EXILE + CHRONICLES

  // The rows whose key is the lower-case form of the corpus name, by alphabet.

  const FULL_A: seq<(string, string)> :=
    [("amos", "Amos"), ("daniel", "Daniel"), ("deuteronomy", "Deuteronomy"), ("ecclesiastes", "Ecclesiastes"),
     ("esther", "Esther"), ("exodus", "Exodus"), ("ezekiel", "Ezekiel"), ("ezra", "Ezra"),
     ("genesis", "Genesis"), ("habakkuk", "Habakkuk"), ("haggai", "Haggai"), ("hosea", "Hosea"),
     ("isaiah", "Isaiah"), ("jeremiah", "Jeremiah"), ("job", "Job"), ("joel", "Joel")]

  const FULL_B: seq<(string, string)> :=
    [("jonah", "Jonah"), ("joshua", "Joshua"), ("judges", "Judges"), ("lamentations", "Lamentations"),
     ("leviticus", "Leviticus"), ("malachi", "Malachi"), ("micah", "Micah"), ("nahum", "Nahum"),
     ("nehemiah", "Nehemiah"), ("numbers", "Numbers"), ("obadiah", "Obadiah"), ("proverbs", "Proverbs"),
     ("psalms", "Psalms"), ("ruth", "Ruth"), ("zechariah", "Zechariah"), ("zephaniah", "Zephaniah")]

  const NAMES_A: seq<string> :=
    ["Amos", "Daniel", "Deuteronomy", "Ecclesiastes", "Esther", "Exodus", "Ezekiel", "Ezra", "Genesis",
     "Habakkuk", "Haggai", "Hosea", "Isaiah", "Jeremiah", "Job", "Joel"]

  const NAMES_B: seq<string> :=
    ["Jonah", "Joshua", "Judges", "Lamentations", "Leviticus", "Malachi", "Micah", "Nahum", "Nehemiah",
     "Numbers", "Obadiah", "Proverbs", "Psalms", "Ruth", "Zechariah", "Zephaniah"]

  /** The corpus names that only their similarity to a key leads back to. */
  const NEAR_NAMES: seq<string> :=
    ["1_Samuel", "2_Samuel", "1_Kings", "2_Kings", "1_Chronicles", "2_Chronicles", "Song_of_songs"]

  function AsciiLower(s: string): string {
    seq(|s|, i requires 0 <= i < |s| => if 'A' <= s[i] <= 'Z' then (s[i] as int + 32) as char else s[i])
  }

  predicate Known(name: string) {
    name in NAMES_A || name in NAMES_B || name in NEAR_NAMES
  }

  /** The key begins like its name, in up to three letters. */
  predicate Headed(p: (string, string)) {
    && p.0 != [] && |p.1| >= 3 && p.0[0] as int == p.1[0] as int + 32
    && (|p.0| >= 2 ==> p.0[1] == p.1[1]) && (|p.0| >= 3 ==> p.0[2] == p.1[2])
  }

  /** The characters that tell the rows of a numbered book from all other rows. */
  predicate Numbered(p: (string, string)) {
    && ('1' in p.0 && 'a' in p.0 ==> p.1 == "1_Samuel") && ('2' in p.0 && 'a' in p.0 ==> p.1 == "2_Samuel")
    && ('1' in p.0 && 'k' in p.0 ==> p.1 == "1_Kings") && ('2' in p.0 && 'k' in p.0 ==> p.1 == "2_Kings")
    && ('1' in p.0 && 'h' in p.0 ==> p.1 == "1_Chronicles") && ('2' in p.0 && 'h' in p.0 ==> p.1 == "2_Chronicles")
  }

  /** A row of a numbered book, or one without digits that begins like its name. */
  predicate Fits(p: (string, string)) {
    && Known(p.1) && '_' !in p.0 && ('f' in p.0 ==> p.1 == "Song_of_songs")
    && Numbered(p) && ((p.0 != [] && p.0[0] < 'a') || Headed(p))
  }

  // ---- Row by row --------------------------------------------------------------------------

  lemma {:induction false} LawKnown(p: (string, string))
    requires p in LAW
    ensures Known(p.1) && '_' !in p.0 && ('f' in p.0 ==> p.1 == "Song_of_songs")
  {}

  lemma {:induction false} LawStart(p: (string, string))
    requires p in LAW
    ensures '1' !in p.0 && '2' !in p.0 && Headed(p)
  {}

  lemma {:induction false} FormerKnown(p: (string, string))
    requires p in FORMER
    ensures Known(p.1) && '_' !in p.0 && ('f' in p.0 ==> p.1 == "Song_of_songs")
  {}

  lemma {:induction false} FormerStart(p: (string, string))
    requires p in FORMER
    ensures '1' !in p.0 && '2' !in p.0 && Headed(p)
  {}

  lemma {:induction false} SamuelKnown(p: (string, string))
    requires p in SAMUEL
    ensures Known(p.1) && '_' !in p.0 && ('f' in p.0 ==> p.1 == "Song_of_songs")
  {}

  lemma {:induction false} SamuelStart(p: (string, string))
    requires p in SAMUEL
    ensures Numbered(p) && p.0 != [] && p.0[0] < 'a'
  {}

  lemma {:induction false} KingsKnown(p: (string, string))
    requires p in KINGS
    ensures Known(p.1) && '_' !in p.0 && ('f' in p.0 ==> p.1 == "Song_of_songs")
  {}

  lemma {:induction false} KingsStart(p: (string, string))
    requires p in KINGS
    ensures Numbered(p) && p.0 != [] && p.0[0] < 'a'
  {}

  lemma {:induction false} LaterKnown(p: (string, string))
    requires p in LATER
    ensures Known(p.1) && '_' !in p.0 && ('f' in p.0 ==> p.1 == "Song_of_songs")
  {}

  lemma {:induction false} LaterStart(p: (string, string))
    requires p in LATER
    ensures '1' !in p.0 && '2' !in p.0 && Headed(p)
  {}

  lemma {:induction false} TwelveKnown(p: (string, string))
    requires p in TWELVE
    ensures Known(p.1) && '_' !in p.0 && ('f' in p.0 ==> p.1 == "Song_of_songs")
  {}

  lemma {:induction false} TwelveStart(p: (string, string))
    requires p in TWELVE
    ensures '1' !in p.0 && '2' !in p.0 && Headed(p)
  {}

  lemma {:induction false} ScrollsKnown(p: (string, string))
    requires p in SCROLLS
    ensures Known(p.1) && '_' !in p.0 && ('f' in p.0 ==> p.1 == "Song_of_songs")
  {}

  lemma {:induction false} ScrollsStart(p: (string, string))
    requires p in SCROLLS
    ensures '1' !in p.0 && '2' !in p.0 && Headed(p)
  {}

  lemma {:induction false} PoetryKnown(p: (string, string))
    requires p in POETRY
    ensures Known(p.1) && '_' !in p.0 && ('f' in p.0 ==> p.1 == "Song_of_songs")
  {}

  lemma {:induction false} PoetryStart(p: (string, string))
    requires p in POETRY
    ensures '1' !in p.0 && '2' !in p.0 && Headed(p)
  {}

  lemma {:induction false} SongsKnown(p: (string, string))
    requires p in SONGS
    ensures Known(p.1) && '_' !in p.0 && ('f' in p.0 ==> p.1 == "Song_of_songs")
  {}

  lemma {:induction false} SongsStart(p: (string, string))
    requires p in SONGS
    ensures '1' !in p.0 && '2' !in p.0 && Headed(p)
  {}

  lemma {:induction false} ExileKnown(p: (string, string))
    requires p in EXILE
    ensures Known(p.1) && '_' !in p.0 && ('f' in p.0 ==> p.1 == "Song_of_songs")
  {}

  lemma {:induction false} ExileStart(p: (string, string))
    requires p in EXILE
    ensures '1' !in p.0 && '2' !in p.0 && Headed(p)
  {}

  lemma {:induction false} ChroniclesKnown(p: (string, string))
    requires p in CHRONICLES
    ensures Known(p.1) && '_' !in p.0 && ('f' in p.0 ==> p.1 == "Song_of_songs")
  {}

  lemma {:induction false} ChroniclesStart(p: (string, string))
    requires p in CHRONICLES
    ensures Numbered(p) && p.0 != [] && p.0[0] < 'a'
  {}

  lemma {:induction false} Row(p: (string, string))
    requires p in BOOK_NAMES
    ensures Fits(p)
  {
    if p in LAW { LawKnown(p); LawStart(p); }
    else if p in FORMER { FormerKnown(p); FormerStart(p); }
    else if p in SAMUEL { SamuelKnown(p); SamuelStart(p); }
    else if p in KINGS { KingsKnown(p); KingsStart(p); }
    else if p in LATER { LaterKnown(p); LaterStart(p); }
    else if p in TWELVE { TwelveKnown(p); TwelveStart(p); }
    else if p in SCROLLS { ScrollsKnown(p); ScrollsStart(p); }
    else if p in POETRY { PoetryKnown(p); PoetryStart(p); }
    else if p in SONGS { SongsKnown(p); SongsStart(p); }
    else if p in EXILE { ExileKnown(p); ExileStart(p); }
    else { ChroniclesKnown(p); ChroniclesStart(p); }
  }

  /** The name is its key with a capital. */
  predicate Capitalized(q: (string, string)) {
    && |q.0| == |q.1| >= 3 && q.0[0] as int == q.1[0] as int + 32
    && (forall i :: 1 <= i < |q.0| ==> q.0[i] == q.1[i])
  }

  predicate LettersOnly(key: string) {
    forall i :: 0 <= i < |key| ==> 'a' <= key[i] <= 'z'
  }

  /** The row of a full name. */
  predicate Full(q: (string, string)) {
    q in BOOK_NAMES && Capitalized(q) && LettersOnly(q.0)
  }

  lemma {:induction false} ListedA(q: (string, string))
    requires q in FULL_A
    ensures q in BOOK_NAMES
  {}

  lemma {:induction false} CapitalA(q: (string, string))
    requires q in FULL_A
    ensures Capitalized(q)
  {}

  lemma {:induction false} LettersA(q: (string, string))
    requires q in FULL_A
    ensures LettersOnly(q.0)
  {}

  lemma {:induction false} NamedA(name: string) returns (q: (string, string))
    requires name in NAMES_A
    ensures q in FULL_A && q.1 == name
  {
    var i :| 0 <= i < |NAMES_A| && NAMES_A[i] == name;
    q := FULL_A[i];
  }

  lemma {:induction false} ListedB(q: (string, string))
    requires q in FULL_B
    ensures q in BOOK_NAMES
  {}

  lemma {:induction false} CapitalB(q: (string, string))
    requires q in FULL_B
    ensures Capitalized(q)
  {}

  lemma {:induction false} LettersB(q: (string, string))
    requires q in FULL_B
    ensures LettersOnly(q.0)
  {}

  lemma {:induction false} NamedB(name: string) returns (q: (string, string))
    requires name in NAMES_B
    ensures q in FULL_B && q.1 == name
  {
    var i :| 0 <= i < |NAMES_B| && NAMES_B[i] == name;
    q := FULL_B[i];
  }

  // ---- Beginnings --------------------------------------------------------------------------

  predicate HeadLess(a: string, b: string) {
    && |a| >= 3 && |b| >= 3
    && (a[0] < b[0] || (a[0] == b[0] && (a[1] < b[1] || (a[1] == b[1] && a[2] < b[2]))))
  }

  function Name(i: nat): string
    requires i < |NAMES_A| + |NAMES_B|
  {
    if i < |NAMES_A| then NAMES_A[i] else NAMES_B[i - |NAMES_A|]
  }

  lemma {:induction false} AlphabeticalA(i: nat)
    requires i + 1 < |NAMES_A|
    ensures HeadLess(NAMES_A[i], NAMES_A[i + 1])
  {}

  lemma {:induction false} AlphabeticalB(i: nat)
    requires i + 1 < |NAMES_B|
    ensures HeadLess(NAMES_B[i], NAMES_B[i + 1])
  {}

  lemma {:induction false} Alphabetical(i: nat)
    requires i + 1 < |NAMES_A| + |NAMES_B|
    ensures HeadLess(Name(i), Name(i + 1))
  {
    if i + 1 < |NAMES_A| {
      AlphabeticalA(i);
    } else if i >= |NAMES_A| {
      AlphabeticalB(i - |NAMES_A|);
    }
  }

  lemma {:induction false} HeadsAscend(i: nat, j: nat)
    requires i < j < |NAMES_A| + |NAMES_B|
    ensures HeadLess(Name(i), Name(j))
  {
    Alphabetical(j - 1);
    if i < j - 1 { HeadsAscend(i, j - 1); }
  }

  lemma {:induction false} Place(name: string) returns (i: nat)
    requires name in NAMES_A || name in NAMES_B
    ensures i < |NAMES_A| + |NAMES_B| && Name(i) == name
  {
    if name in NAMES_A {
      i :| 0 <= i < |NAMES_A| && NAMES_A[i] == name;
    } else {
      var j :| 0 <= j < |NAMES_B| && NAMES_B[j] == name;
      i := j + |NAMES_A|;
    }
  }

  /** No two full names begin with the same three letters. */
  lemma {:induction false} HeadsDiffer(a: string, b: string)
    requires (a in NAMES_A || a in NAMES_B) && (b in NAMES_A || b in NAMES_B) && a != b
    ensures HeadLess(a, b) || HeadLess(b, a)
  {
    var i := Place(a);
    var j := Place(b);
    if i < j { HeadsAscend(i, j); } else if j < i { HeadsAscend(j, i); }
  }

  // ---- Exact keys --------------------------------------------------------------------------

  /** `lower` treats the corpus names as ASCII text. */
  ghost predicate LowersNames(lower: string -> string) {
    forall p :: p in BOOK_NAMES ==> lower(p.1) == AsciiLower(p.1)
  }

  predicate Fixed(table: seq<(string, string)>, lower: string -> string, name: string) {
    PlainName(name) && Normalize(table, lower, name) == name
  }

  lemma {:induction false} FullRow(name: string) returns (q: (string, string))
    requires name in NAMES_A || name in NAMES_B
    ensures q.1 == name && Full(q)
  {
    if name in NAMES_A {
      q := NamedA(name);
      ListedA(q);
      CapitalA(q);
      LettersA(q);
    } else {
      q := NamedB(name);
      ListedB(q);
      CapitalB(q);
      LettersB(q);
    }
  }

  lemma {:induction false} NearHeads(near: string)
    requires near in NEAR_NAMES
    ensures |near| >= 2 && (near[0] < 'A' || (near[0] == 'S' && near[1] == 'o'))
  {}

  lemma {:induction false} FullHeads(name: string)
    requires name in NAMES_A || name in NAMES_B
    ensures |name| >= 2 && 'A' <= name[0] != 'S'
  {}

  /** A row with a full name's key is a row of that name. */
  lemma {:induction false} KeyTells(p: (string, string), q: (string, string))
    requires p in BOOK_NAMES && Full(q) && (q.1 in NAMES_A || q.1 in NAMES_B) && p.0 == q.0
    ensures p.1 == q.1
  {
    Row(p);
    Row(q);
    assert Headed(p) && Headed(q);
    if p.1 in NEAR_NAMES {
      NearHeads(p.1);
      FullHeads(q.1);
    } else if p.1 != q.1 {
      HeadsDiffer(p.1, q.1);
    }
  }

  lemma {:induction false} ExactName(table: seq<(string, string)>, lower: string -> string, q: (string, string))
    requires q in table && Key(lower, q.1) == q.0
    requires forall p :: p in table && p.0 == q.0 ==> p.1 == q.1
    ensures Normalize(table, lower, q.1) == q.1
  {
    LookupFinds(table, q.0);
    var i :| 0 <= i < |table| && table[i] == q;
    var first := Lookup(table, q.0);
    assert first.Some?;
    var j :| 0 <= j < |table| && table[j].0 == q.0 && first.value == table[j].1;
    assert table[j] in table;
  }

  lemma {:induction false} CapitalizedIsPlain(q: (string, string))
    requires Capitalized(q) && LettersOnly(q.0)
    ensures AsciiLower(q.1) == q.0 && PlainName(q.1) && Text.Trimmed(q.0)
  {
    WordyIsPlain(q.0);
    WordyIsPlain(q.1);
  }

  /** Letters, digits and underscores only. */
  predicate Wordy(s: string) {
    s != [] && forall i :: 0 <= i < |s| ==> WordChar(s[i])
  }

  predicate WordChar(c: char) {
    'a' <= c <= 'z' || 'A' <= c <= 'Z' || '0' <= c <= '9' || c == '_'
  }

  lemma {:induction false} WordyIsPlain(s: string)
    requires Wordy(s)
    ensures PlainName(s)
  {
    assert WordChar(s[0]) && WordChar(s[|s| - 1]);
  }

  lemma {:induction false} FullIsFixed(table: seq<(string, string)>, lower: string -> string, name: string)
    requires table == BOOK_NAMES && LowersNames(lower) && (name in NAMES_A || name in NAMES_B)
    ensures Fixed(table, lower, name)
  {
    var q := FullRow(name);
    CapitalizedIsPlain(q);
    Text.StripTrims(q.0);
    forall p | p in BOOK_NAMES && p.0 == q.0 ensures p.1 == q.1 { KeyTells(p, q); }
    ExactName(table, lower, q);
  }

  // ---- Near keys ---------------------------------------------------------------------------

  /** A table without the key, in which only rows of one name come as close to it as `best`. */
  lemma {:induction false} NearestName(table: seq<(string, string)>, lower: string -> string, name: string, key: string,
                                       row: (string, string), best: real)
    requires Key(lower, name) == key && row in table && row.1 == name && name != []
    requires Score(key, row.0) >= best >= SIMILARITY_THRESHOLD
    requires forall p :: p in table ==> p.0 != key && (p.1 != name ==> Score(key, p.0) < best)
    ensures Normalize(table, lower, name) == name
  {
    LookupFinds(table, key);
    assert forall i :: 0 <= i < |table| ==> table[i] in table;
    ScanFindsFirstBest(table, key, |table|);
    var r :| 0 <= r < |table| && table[r] == row;
    var chosen := BestUpTo(table, key, |table|);
    if chosen.Some? {
      assert table[chosen.value] in table;
      assert Score(key, table[r].0) <= Score(key, table[chosen.value].0);
    }
  }

  /** Every character of `key` that `text` lacks costs one unit of the longest common subsequence. */
  lemma {:induction false} LackedScore(key: string, text: string, lacked: set<nat>)
    requires key != [] && key != text && forall i :: i in lacked ==> i < |key| && key[i] !in text
    ensures |lacked| <= |key| && Score(key, text) <= (|key| - |lacked|) as real / |key| as real
  {
    LcsLacks(key, text, lacked);
    if text != [] {
      Ratio(Lcs(key, text), |key| - |lacked|, Max(|key|, |text|), |key|);
    } else {
      Ratio(0, |key| - |lacked|, 1, |key|);
    }
  }

  lemma {:induction false} Ratio(a: nat, b: nat, m: nat, n: nat)
    requires a <= b && 0 < n && 0 < m && (a == 0 || n <= m)
    ensures a as real / m as real <= b as real / n as real
  {
    var x, y := a as real / m as real, b as real / n as real;
    assert x * m as real == a as real && y * n as real == b as real;
    if x > y { Product(x, y, m as real, n as real); }
  }

  lemma {:induction false} Product(x: real, y: real, m: real, n: real)
    requires x > y >= 0.0 && m >= n > 0.0
    ensures x * m > y * n
  {
    assert x * m >= x * n;
  }

  /** A text that is the key with one character left out shares all of itself with the key. */
  lemma {:induction false} OneShort(head: string, c: char, tail: string)
    requires head + tail != []
    ensures Score(head + [c] + tail, head + tail) == |head + tail| as real / (|head + tail| + 1) as real
  {
    var key, text := head + [c] + tail, head + tail;
    SubsequenceOfSelf(head);
    Longer(head, Init(head + [c]), head + [c]);
    SubsequenceExtends(head, head + [c], tail);
    SubsequenceOfSelf(text);
    LcsIsUpperBound(text, key, text);
    LcsBounds(key, text);
  }

  // ---- The near names ----------------------------------------------------------------------

  /** A numbered book: digit, underscore, rest; the table has it without the underscore. */
  lemma {:induction false} NumberedName(table: seq<(string, string)>, lower: string -> string, name: string,
                                        digit: char, rest: string, m: nat)
    requires |rest| >= 5 && m < |rest| && digit != '_' && '_' !in rest
    requires Key(lower, name) == [digit, '_'] + rest && name != []
    requires ([digit] + rest, name) in table
    requires forall p :: p in table ==> '_' !in p.0 && (digit in p.0 && rest[m] in p.0 ==> p.1 == name)
    ensures Normalize(table, lower, name) == name
  {
    var key, text := [digit, '_'] + rest, [digit] + rest;
    var n := |key|;
    var best := (n - 1) as real / n as real;
    assert key == [digit] + ['_'] + rest;
    OneShort([digit], '_', rest);
    Fractions(n);
    assert key[1] == '_' && key[0] == digit && key[m + 2] == rest[m];
    forall p | p in table ensures p.0 != key && (p.1 != name ==> Score(key, p.0) < best) {
      if p.1 != name { LackedScore(key, p.0, if digit in p.0 then {1, m + 2} else {0, 1}); }
    }
    NearestName(table, lower, name, key, (text, name), best);
  }

  lemma {:induction false} Fractions(n: nat)
    requires n >= 7
    ensures (n - 2) as real / n as real < (n - 1) as real / n as real
    ensures (n - 1) as real / n as real >= SIMILARITY_THRESHOLD
  {
    var x := (n - 1) as real / n as real;
    assert x * n as real == (n - 1) as real;
    if x < SIMILARITY_THRESHOLD { Product(SIMILARITY_THRESHOLD, x, n as real, n as real); }
  }

  /** A name of two underscores, whose other rows lack a third character as well. */
  lemma {:induction false} SongName(table: seq<(string, string)>, lower: string -> string, name: string)
    requires name != [] && Key(lower, name) == "song" + "_" + "of" + "_" + "songs"
    requires ("song" + " " + "of" + " " + "songs", name) in table
    requires forall p :: p in table ==> '_' !in p.0 && ('f' in p.0 ==> p.1 == name)
    ensures Normalize(table, lower, name) == name
  {
    var key, text := "song" + "_" + "of" + "_" + "songs", "song" + " " + "of" + " " + "songs";
    var best := 11.0 / 13.0;
    TwoSeparators("song", "of", "songs", '_', ' ');
    assert |key| == |text| == 13;
    assert key[4] == '_' && key[7] == '_' && key[6] == 'f' && text[4] != key[4];
    Ratio(11, Lcs(key, text), 13, 13);
    forall p | p in table ensures p.0 != key && (p.1 != name ==> Score(key, p.0) < best) {
      if p.1 != name { LackedScore(key, p.0, {4, 6, 7}); }
    }
    NearestName(table, lower, name, key, (text, name), best);
  }

  /** Three words keep their letters under other separators. */
  lemma {:induction false} TwoSeparators(a: string, b: string, c: string, x: char, y: char)
    ensures Lcs(a + [x] + b + [x] + c, a + [y] + b + [y] + c) >= |a| + |b| + |c|
  {
    WithSeparators(a, b, c, x);
    WithSeparators(a, b, c, y);
    LcsIsUpperBound(a + b + c, a + [x] + b + [x] + c, a + [y] + b + [y] + c);
  }

  lemma {:induction false} WithSeparators(a: string, b: string, c: string, x: char)
    ensures Subsequence(a + b + c, a + [x] + b + [x] + c)
  {
    SubsequenceOfSelf(a);
    Longer(a, Init(a + [x]), a + [x]);
    SubsequenceExtends(a, a + [x], b);
    Longer(a + b, Init(a + [x] + b + [x]), a + [x] + b + [x]);
    SubsequenceExtends(a + b, a + [x] + b + [x], c);
  }

  // ---- The whole table ---------------------------------------------------------------------

  lemma {:induction false} NearIsPlain(name: string)
    requires name in NEAR_NAMES
    ensures Wordy(name) && Text.Trimmed(AsciiLower(name))
  {}

  lemma {:induction false} SamuelKeys()
    ensures |"samuel"| >= 5 && '_' !in "samuel" && "samuel"[1] == 'a'
    ensures AsciiLower("1_Samuel") == ['1', '_'] + "samuel" && AsciiLower("2_Samuel") == ['2', '_'] + "samuel"
  {}

  lemma {:induction false} KingsKeys()
    ensures |"kings"| >= 5 && '_' !in "kings" && "kings"[0] == 'k'
    ensures AsciiLower("1_Kings") == ['1', '_'] + "kings" && AsciiLower("2_Kings") == ['2', '_'] + "kings"
  {}

  lemma {:induction false} ChroniclesKeys()
    ensures |"chronicles"| >= 5 && '_' !in "chronicles" && "chronicles"[1] == 'h'
    ensures AsciiLower("1_Chronicles") == ['1', '_'] + "chronicles"
      && AsciiLower("2_Chronicles") == ['2', '_'] + "chronicles"
  {}

  lemma {:induction false} SongKey()
    ensures AsciiLower("Song_of_songs") == "song" + "_" + "of" + "_" + "songs"
  {}

  // The rows that the near names are closest to, and what tells all other rows from them.

  ghost predicate Marks(table: seq<(string, string)>, digit: char, c: char, name: string) {
    forall p :: p in table ==> '_' !in p.0 && (digit in p.0 && c in p.0 ==> p.1 == name)
  }

  lemma {:induction false} SamuelRows(digit: char, name: string)
    requires (digit == '1' && name == "1_Samuel") || (digit == '2' && name == "2_Samuel")
    ensures ([digit] + "samuel", name) in BOOK_NAMES
  {
    assert [digit] + "samuel" == if digit == '1' then "1samuel" else "2samuel";
  }

  lemma {:induction false} SamuelMarks(digit: char, name: string)
    requires (digit == '1' && name == "1_Samuel") || (digit == '2' && name == "2_Samuel")
    ensures Marks(BOOK_NAMES, digit, 'a', name)
  {
    forall p | p in BOOK_NAMES ensures Fits(p) { Row(p); }
  }

  lemma {:induction false} KingsRows(digit: char, name: string)
    requires (digit == '1' && name == "1_Kings") || (digit == '2' && name == "2_Kings")
    ensures ([digit] + "kings", name) in BOOK_NAMES
  {
    assert [digit] + "kings" == if digit == '1' then "1kings" else "2kings";
  }

  lemma {:induction false} KingsMarks(digit: char, name: string)
    requires (digit == '1' && name == "1_Kings") || (digit == '2' && name == "2_Kings")
    ensures Marks(BOOK_NAMES, digit, 'k', name)
  {
    forall p | p in BOOK_NAMES ensures Fits(p) { Row(p); }
  }

  lemma {:induction false} ChroniclesRows(digit: char, name: string)
    requires (digit == '1' && name == "1_Chronicles") || (digit == '2' && name == "2_Chronicles")
    ensures ([digit] + "chronicles", name) in BOOK_NAMES
  {
    assert [digit] + "chronicles" == if digit == '1' then "1chronicles" else "2chronicles";
  }

  lemma {:induction false} ChroniclesMarks(digit: char, name: string)
    requires (digit == '1' && name == "1_Chronicles") || (digit == '2' && name == "2_Chronicles")
    ensures Marks(BOOK_NAMES, digit, 'h', name)
  {
    forall p | p in BOOK_NAMES ensures Fits(p) { Row(p); }
  }

  lemma {:induction false} SongRow()
    ensures ("song" + " " + "of" + " " + "songs", "Song_of_songs") in BOOK_NAMES
  {
    assert "song" + " " + "of" + " " + "songs" == "song of songs";
  }

  lemma {:induction false} SongMarks(name: string)
    requires name == "Song_of_songs"
    ensures forall p :: p in BOOK_NAMES ==> '_' !in p.0 && ('f' in p.0 ==> p.1 == name)
  {
    forall p | p in BOOK_NAMES ensures Fits(p) { Row(p); }
  }

  /** A plain name that is lower-cased as ASCII text. */
  predicate Lowers(lower: string -> string, name: string) {
    PlainName(name) && lower(name) == AsciiLower(name) && Text.Trimmed(AsciiLower(name))
  }

  lemma {:induction false} NumberedFixed(table: seq<(string, string)>, lower: string -> string, name: string,
                                         digit: char, rest: string, m: nat)
    requires Lowers(lower, name) && AsciiLower(name) == [digit, '_'] + rest
    requires |rest| >= 5 && m < |rest| && digit != '_' && '_' !in rest
    requires ([digit] + rest, name) in table && Marks(table, digit, rest[m], name)
    ensures Fixed(table, lower, name)
  {
    Text.StripTrims(AsciiLower(name));
    NumberedName(table, lower, name, digit, rest, m);
  }

  lemma {:induction false} SamuelFixed(table: seq<(string, string)>, lower: string -> string, name: string, digit: char)
    requires table == BOOK_NAMES && Lowers(lower, name)
    requires (digit == '1' && name == "1_Samuel") || (digit == '2' && name == "2_Samuel")
    ensures Fixed(table, lower, name)
  {
    SamuelRows(digit, name);
    SamuelMarks(digit, name);
    SamuelKeys();
    NumberedFixed(table, lower, name, digit, "samuel", 1);
  }

  lemma {:induction false} KingsFixed(table: seq<(string, string)>, lower: string -> string, name: string, digit: char)
    requires table == BOOK_NAMES && Lowers(lower, name)
    requires (digit == '1' && name == "1_Kings") || (digit == '2' && name == "2_Kings")
    ensures Fixed(table, lower, name)
  {
    KingsRows(digit, name);
    KingsMarks(digit, name);
    KingsKeys();
    NumberedFixed(table, lower, name, digit, "kings", 0);
  }

  lemma {:induction false} ChroniclesFixed(table: seq<(string, string)>, lower: string -> string, name: string,
                                           digit: char)
    requires table == BOOK_NAMES && Lowers(lower, name)
    requires (digit == '1' && name == "1_Chronicles") || (digit == '2' && name == "2_Chronicles")
    ensures Fixed(table, lower, name)
  {
    ChroniclesRows(digit, name);
    ChroniclesMarks(digit, name);
    ChroniclesKeys();
    NumberedFixed(table, lower, name, digit, "chronicles", 1);
  }

  lemma {:induction false} SongFixed(table: seq<(string, string)>, lower: string -> string, name: string)
    requires table == BOOK_NAMES && Lowers(lower, name) && name == "Song_of_songs"
    ensures Fixed(table, lower, name)
  {
    SongRow();
    SongMarks(name);
    SongKey();
    Text.StripTrims(AsciiLower(name));
    SongName(table, lower, name);
  }

  lemma {:induction false} NearPlace(name: string) returns (i: nat)
    requires name in NEAR_NAMES
    ensures i < |NEAR_NAMES| && NEAR_NAMES[i] == name
  {
    i :| 0 <= i < |NEAR_NAMES| && NEAR_NAMES[i] == name;
  }

  lemma {:induction false} NearIsFixed(table: seq<(string, string)>, lower: string -> string, name: string)
    requires table == BOOK_NAMES && name in NEAR_NAMES && lower(name) == AsciiLower(name)
    ensures Fixed(table, lower, name)
  {
    NearIsPlain(name);
    WordyIsPlain(name);
    var i := NearPlace(name);
    NearAt(table, lower, name, i);
  }

  lemma {:induction false} NearAt(table: seq<(string, string)>, lower: string -> string, name: string, i: nat)
    requires table == BOOK_NAMES && Lowers(lower, name) && i < |NEAR_NAMES| && NEAR_NAMES[i] == name
    ensures Fixed(table, lower, name)
  {
    if i == 0 { SamuelFixed(table, lower, name, '1'); }
    else if i == 1 { SamuelFixed(table, lower, name, '2'); }
    else if i == 2 { KingsFixed(table, lower, name, '1'); }
    else if i == 3 { KingsFixed(table, lower, name, '2'); }
    else if i == 4 { ChroniclesFixed(table, lower, name, '1'); }
    else if i == 5 { ChroniclesFixed(table, lower, name, '2'); }
    else { SongFixed(table, lower, name); }
  }

  /** Every corpus name of the table is plain and is normalized to itself. */
  lemma {:induction false} NamesAreFixed(table: seq<(string, string)>, lower: string -> string, p: (string, string))
    requires table == BOOK_NAMES && LowersNames(lower) && p in BOOK_NAMES
    ensures Fixed(table, lower, p.1)
  {
    Row(p);
    if p.1 in NEAR_NAMES { NearIsFixed(table, lower, p.1); } else { FullIsFixed(table, lower, p.1); }
  }

  /** With the program's own table, printing a parsed reference and parsing it again changes nothing. */
  lemma {:induction false} TablePrintUndoesParse(table: seq<(string, string)>, lower: string -> string, text: string)
    requires table == BOOK_NAMES && LowersNames(lower)
    requires Parse(table, lower, text).Ok?
    ensures Parse(table, lower, Print(Parse(table, lower, text).ref)) == Parse(table, lower, text)
  {
    forall i | 0 <= i < |table| ensures PlainName(table[i].1) && Normalize(table, lower, table[i].1) == table[i].1 {
      assert table[i] in BOOK_NAMES;
      NamesAreFixed(table, lower, table[i]);
    }
    PrintUndoesParse(table, lower, text);
  }

  /** Every key that names no numbered book begins like its corpus name. */
  lemma {:induction false} KeysBeginTheirNames(table: seq<(string, string)>, p: (string, string))
    requires table == BOOK_NAMES && p in table && p.0 != [] && p.0[0] >= 'a'
    ensures Headed(p)
  {
    Row(p);
  }
}
