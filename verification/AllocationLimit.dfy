/** A run of the Annotation Studio after which no word can be created although only fifty are left. */
module AllocationLimit {
  import opened Options
  import opened Naming
  import opened Studio

  /** Words with the automatic labels of the numbers above `low` up to `high`, each its own key. */
  function Numbered(language: string, low: nat, high: nat): map<string, Word> {
    if high <= low then map[]
    else Numbered(language, low, high - 1)[WordLabel(high) := Word(language, WordLabel(high), None)]
  }

  lemma {:induction false} NumberedHas(language: string, low: nat, high: nat, x: string)
    ensures x in Numbered(language, low, high) <==> exists i: nat :: low < i <= high && x == WordLabel(i)
    ensures x in Numbered(language, low, high) ==> Numbered(language, low, high)[x] == Word(language, x, None)
  {
    if high > low { NumberedHas(language, low, high - 1, x); }
  }

  lemma {:induction false} NumberedAt(language: string, low: nat, high: nat, i: nat)
    ensures WordLabel(i) in Numbered(language, low, high) <==> low < i <= high
  {
    NumberedHas(language, low, high, WordLabel(i));
    if WordLabel(i) in Numbered(language, low, high) {
      var j: nat :| low < j <= high && WordLabel(i) == WordLabel(j);
      AutoLabelsInjective(i, j);
    }
  }

  lemma {:induction false} NumberedSize(language: string, low: nat, high: nat)
    requires low <= high
    ensures |Numbered(language, low, high).Keys| == high - low
  {
    if high > low {
      NumberedSize(language, low, high - 1);
      NumberedAt(language, low, high - 1, high);
      assert Numbered(language, low, high).Keys == Numbered(language, low, high - 1).Keys + {WordLabel(high)};
    }
  }

  function With(languages: map<string, string>, words: map<string, Word>): Db {
    Empty(languages).(words := words)
  }

  lemma {:induction false} NumberedLabels(languages: map<string, string>, language: string, low: nat, high: nat)
    ensures var db := With(languages, Numbered(language, low, high));
      WordsOf(db, language) == db.words.Keys == WordLabels(db, language)
  {
    var db := With(languages, Numbered(language, low, high));
    forall x | x in db.words ensures db.words[x] == Word(language, x, None) { NumberedHas(language, low, high, x); }
    assert WordsOf(db, language) == db.words.Keys;
    forall x | x in db.words ensures x in WordLabels(db, language) { assert db.words[x].name == x; }
  }

  /** The next creation numbers on. */
  lemma {:induction false} CreateNext(languages: map<string, string>, language: string, n: nat)
    requires language in languages
    ensures ReplyTo(With(languages, Numbered(language, 0, n)), CreateWord(WordLabel(n + 1), language, None)) ==
      Ok(With(languages, Numbered(language, 0, n + 1)))
  {
    NumberedLabels(languages, language, 0, n);
    NumberedSize(language, 0, n);
    NumberedAt(language, 0, n, n + 1);
  }

  lemma {:induction false} DeleteLowest(languages: map<string, string>, language: string, low: nat, high: nat)
    requires low < high
    ensures ReplyTo(With(languages, Numbered(language, low, high)), DeleteWord(WordLabel(low + 1))) ==
      Ok(With(languages, Numbered(language, low + 1, high)))
  {
    NumberedAt(language, low, high, low + 1);
    var words, rest := Numbered(language, low, high), Numbered(language, low + 1, high);
    forall x
      ensures x in rest <==> x in words && x != WordLabel(low + 1)
      ensures x in rest ==> rest[x] == words[x]
    {
      NumberedHas(language, low, high, x);
      NumberedHas(language, low + 1, high, x);
      NumberedAt(language, low + 1, high, low + 1);
    }
    assert words - {WordLabel(low + 1)} == rest;
  }

  function Creates(language: string, n: nat): seq<Op> {
    if n == 0 then [] else Creates(language, n - 1) + [CreateWord(WordLabel(n), language, None)]
  }

  function Deletes(n: nat): seq<Op> {
    if n == 0 then [] else Deletes(n - 1) + [DeleteWord(WordLabel(n))]
  }

  lemma {:induction false} OneCallMore(db: Db, ops: seq<Op>, op: Op)
    ensures After(db, ops + [op]) == After(After(db, ops), [op])
    decreases |ops|
  {
    if ops == [] {
      assert ops + [op] == [op];
    } else {
      assert (ops + [op])[1..] == ops[1..] + [op];
      OneCallMore(Left(db, ReplyTo(db, ops[0])), ops[1..], op);
    }
  }

  lemma {:induction false} OneCall(db: Db, op: Op, next: Db)
    requires ReplyTo(db, op) == Ok(next)
    ensures After(db, [op]) == next
  {
    assert [op][1..] == [];
  }

  lemma {:induction false} Created(languages: map<string, string>, language: string, n: nat)
    requires language in languages
    ensures After(Empty(languages), Creates(language, n)) == With(languages, Numbered(language, 0, n))
  {
    if n > 0 {
      Created(languages, language, n - 1);
      OneCallMore(Empty(languages), Creates(language, n - 1), CreateWord(WordLabel(n), language, None));
      CreateNext(languages, language, n - 1);
      OneCall(With(languages, Numbered(language, 0, n - 1)), CreateWord(WordLabel(n), language, None),
        With(languages, Numbered(language, 0, n)));
    }
  }

  lemma {:induction false} Deleted(languages: map<string, string>, language: string, n: nat, high: nat)
    requires n <= high && language in languages
    ensures After(Empty(languages), Creates(language, high) + Deletes(n)) ==
      With(languages, Numbered(language, n, high))
  {
    if n == 0 {
      Created(languages, language, high);
      assert Creates(language, high) + Deletes(0) == Creates(language, high);
    } else {
      var ops := Creates(language, high) + Deletes(n - 1);
      Deleted(languages, language, n - 1, high);
      assert Creates(language, high) + Deletes(n) == ops + [DeleteWord(WordLabel(n))];
      OneCallMore(Empty(languages), ops, DeleteWord(WordLabel(n)));
      DeleteLowest(languages, language, n - 1, high);
      OneCall(With(languages, Numbered(language, n - 1, high)), DeleteWord(WordLabel(n)),
        With(languages, Numbered(language, n, high)));
    }
  }

  lemma {:induction false} NoneFree(name: nat -> string, taken: set<string>, n: nat, stop: nat)
    requires forall j: nat :: n <= j < stop ==> name(j) in taken
    ensures FirstFree(name, taken, n, stop) == None
    decreases stop - n
  {
    if n < stop { NoneFree(name, taken, n + 1, stop); }
  }

  lemma {:induction false} WindowTaken(language: string, n: nat)
    ensures FirstFree(WordLabel, Numbered(language, n, n + n).Keys, n + 1, n + 1 + n) == None
  {
    forall j: nat | n + 1 <= j < n + 1 + n ensures WordLabel(j) in Numbered(language, n, n + n).Keys {
      NumberedAt(language, n, n + n, j);
    }
    NoneFree(WordLabel, Numbered(language, n, n + n).Keys, n + 1, n + 1 + n);
  }

  /** Create a hundred words and delete the first fifty: now every further creation is refused. */
  lemma {:induction false} FiftyWordsBlock(languages: map<string, string>, language: string, id: string,
                                           gloss: Option<string>) returns (ops: seq<Op>)
    requires language in languages
    ensures |WordsOf(After(Empty(languages), ops), language)| == ATTEMPTS
    ensures ReplyCreateWord(After(Empty(languages), ops), id, language, gloss) == Err(Conflict)
  {
    var n := ATTEMPTS;
    ops := Creates(language, n + n) + Deletes(n);
    Deleted(languages, language, n, n + n);
    NumberedLabels(languages, language, n, n + n);
    NumberedSize(language, n, n + n);
    WindowTaken(language, n);
  }
}
