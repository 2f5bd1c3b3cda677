/** The chronological order of semesters: `ORDER BY s.year, CASE s.term ... END`.
    The repository states it twice. `get_semesters` ranks Spring (1) before
    Fall (2); `get_student_plan` ranks Spring (1), Summer (2), Fall (3). Neither
    CASE has an ELSE, so any other term gets NULL, and SQLite puts NULL before
    every number in ascending order. */
module SemesterOrder {
  import opened Values

  /** Which of the two CASE expressions ranks the terms. */
  datatype Calendar = SpringFall | SpringSummerFall

  /** A row of the Semesters table. */
  datatype SemesterRow = SemesterRow(id: int, term: string, year: int)

  /** The CASE expression: the term's rank, or NULL (None) for a term it does not list. */
  function Rank(cal: Calendar, term: string): Option<int>
  {
    match cal
    case SpringFall =>
      if term == "Spring" then Some(1)
      else if term == "Fall" then Some(2)
      else None
    case SpringSummerFall =>
      if term == "Spring" then Some(1)
      else if term == "Summer" then Some(2)
      else if term == "Fall" then Some(3)
      else None
  }

  /** The ORDER BY key of a row: its year, then its term's rank. */
  datatype SortKey = SortKey(year: int, rank: Option<int>)

  function Key(cal: Calendar, s: SemesterRow): SortKey
  {
    SortKey(s.year, Rank(cal, s.term))
  }

  /** SQLite's ascending order on a nullable integer: NULL first. */
  predicate RankLe(a: Option<int>, b: Option<int>)
  {
    match (a, b)
    case (None, _) => true
    case (Some(_), None) => false
    case (Some(x), Some(y)) => x <= y
  }

  /** Lexicographic order on the key: year first, rank within a year. */
  predicate KeyLe(a: SortKey, b: SortKey)
  {
    a.year < b.year || (a.year == b.year && RankLe(a.rank, b.rank))
  }

  /** A result is in ORDER BY order: every row's key is at most every later row's. */
  predicate Chronological(cal: Calendar, rows: seq<SemesterRow>)
  {
    forall i, j :: 0 <= i < j < |rows| ==> KeyLe(Key(cal, rows[i]), Key(cal, rows[j]))
  }

  /** Each row's key is at most the next row's. */
  predicate StepwiseChronological(cal: Calendar, rows: seq<SemesterRow>)
  {
    forall i :: 0 <= i < |rows| - 1 ==> KeyLe(Key(cal, rows[i]), Key(cal, rows[i + 1]))
  }

  function Keys(cal: Calendar, rows: seq<SemesterRow>): seq<SortKey>
  {
    seq(|rows|, i requires 0 <= i < |rows| => Key(cal, rows[i]))
  }

  /** The key order is a total order: reflexive, antisymmetric, transitive, total. */
  lemma KeyOrderIsTotal(a: SortKey, b: SortKey, c: SortKey)
    ensures KeyLe(a, a)
    ensures KeyLe(a, b) && KeyLe(b, a) ==> a == b
    ensures KeyLe(a, b) && KeyLe(b, c) ==> KeyLe(a, c)
    ensures KeyLe(a, b) || KeyLe(b, a)
  {
  }

  /** An earlier year comes first, whatever the terms. */
  lemma YearDecides(cal: Calendar, s: SemesterRow, t: SemesterRow)
    requires s.year < t.year
    ensures KeyLe(Key(cal, s), Key(cal, t)) && !KeyLe(Key(cal, t), Key(cal, s))
  {
  }

  /** Within a year, the ranked terms come in the calendar's order: Spring
      before Fall under both CASE expressions, Summer between them under the
      three-term one. */
  lemma TermsWithinYear(y: int)
    ensures forall cal: Calendar ::
      KeyLe(SortKey(y, Rank(cal, "Spring")), SortKey(y, Rank(cal, "Fall"))) &&
      !KeyLe(SortKey(y, Rank(cal, "Fall")), SortKey(y, Rank(cal, "Spring")))
    ensures KeyLe(SortKey(y, Rank(SpringSummerFall, "Spring")), SortKey(y, Rank(SpringSummerFall, "Summer")))
    ensures !KeyLe(SortKey(y, Rank(SpringSummerFall, "Summer")), SortKey(y, Rank(SpringSummerFall, "Spring")))
    ensures KeyLe(SortKey(y, Rank(SpringSummerFall, "Summer")), SortKey(y, Rank(SpringSummerFall, "Fall")))
    ensures !KeyLe(SortKey(y, Rank(SpringSummerFall, "Fall")), SortKey(y, Rank(SpringSummerFall, "Summer")))
  {
    assert "Fall" != "Spring" && "Summer" != "Spring" && "Summer" != "Fall";
  }

  /** Where the two CASE expressions part: the two-term one gives Summer NULL,
      which puts a Summer before the Spring of its own year. */
  lemma SummerUnderSpringFall(y: int)
    ensures Rank(SpringFall, "Summer") == None
    ensures KeyLe(SortKey(y, Rank(SpringFall, "Summer")), SortKey(y, Rank(SpringFall, "Spring")))
    ensures !KeyLe(SortKey(y, Rank(SpringFall, "Spring")), SortKey(y, Rank(SpringFall, "Summer")))
  {
    assert "Summer" != "Spring" && "Summer" != "Fall";
  }

  /** A rank, where there is one, names exactly one term. */
  lemma RankInjective(cal: Calendar, t: string, u: string)
    requires Rank(cal, t).Some? && Rank(cal, t) == Rank(cal, u)
    ensures t == u
  {
  }

  /** On rows whose terms are all Spring or Fall the two CASE expressions
      order the same way. */
  lemma CalendarsAgree(rows: seq<SemesterRow>)
    requires forall i :: 0 <= i < |rows| ==> rows[i].term == "Spring" || rows[i].term == "Fall"
    ensures Chronological(SpringFall, rows) <==> Chronological(SpringSummerFall, rows)
  {
    assert "Spring" != "Fall" && "Spring" != "Summer" && "Fall" != "Summer";
    forall i, j | 0 <= i < |rows| && 0 <= j < |rows|
      ensures KeyLe(Key(SpringFall, rows[i]), Key(SpringFall, rows[j])) <==>
              KeyLe(Key(SpringSummerFall, rows[i]), Key(SpringSummerFall, rows[j]))
    {
    }
  }

  /** Checking neighbours is enough: a stepwise order is the ORDER BY order. */
  lemma {:induction false} StepwiseIsChronological(cal: Calendar, rows: seq<SemesterRow>)
    requires StepwiseChronological(cal, rows)
    ensures Chronological(cal, rows)
  {
    if |rows| > 1 {
      var tail := rows[1..];
      assert StepwiseChronological(cal, tail) by {
        forall i | 0 <= i < |tail| - 1
          ensures KeyLe(Key(cal, tail[i]), Key(cal, tail[i + 1]))
        {
          assert tail[i] == rows[i + 1] && tail[i + 1] == rows[i + 2];
        }
      }
      StepwiseIsChronological(cal, tail);
      forall i, j | 0 <= i < j < |rows|
        ensures KeyLe(Key(cal, rows[i]), Key(cal, rows[j]))
      {
        if i > 0 {
          assert rows[i] == tail[i - 1] && rows[j] == tail[j - 1];
        } else if j > 1 {
          assert rows[j] == tail[j - 1] && rows[1] == tail[0];
          KeyOrderIsTotal(Key(cal, rows[0]), Key(cal, rows[1]), Key(cal, rows[j]));
        }
      }
    }
  }

  predicate SortedKeys(a: seq<SortKey>)
  {
    forall i, j :: 0 <= i < j < |a| ==> KeyLe(a[i], a[j])
  }

  /** The head of a sorted key sequence is at most each of its keys. */
  lemma HeadIsLeast(a: seq<SortKey>, x: SortKey)
    requires SortedKeys(a) && x in a
    ensures KeyLe(a[0], x)
  {
    var i :| 0 <= i < |a| && a[i] == x;
    if i == 0 {
      KeyOrderIsTotal(x, x, x);
    }
  }

  lemma TailMultiset<T>(a: seq<T>, b: seq<T>)
    requires a != [] && b != [] && a[0] == b[0] && multiset(a) == multiset(b)
    ensures multiset(a[1..]) == multiset(b[1..])
  {
    assert a == [a[0]] + a[1..];
    assert b == [b[0]] + b[1..];
    assert multiset(a) == multiset{a[0]} + multiset(a[1..]);
    assert multiset(b) == multiset{b[0]} + multiset(b[1..]);
    assert multiset(a[1..]) == multiset(a) - multiset{a[0]};
    assert multiset(b[1..]) == multiset(b) - multiset{b[0]};
  }

  /** Two sorted sequences holding the same keys are the same sequence. */
  lemma {:induction false} SortedKeysUnique(a: seq<SortKey>, b: seq<SortKey>)
    requires multiset(a) == multiset(b)
    requires SortedKeys(a) && SortedKeys(b)
    ensures a == b
    decreases |a|
  {
    if a == [] {
      assert |b| == |multiset(b)| == 0;
    } else {
      assert |b| == |multiset(b)| == |multiset(a)| == |a|;
      assert a[0] in multiset(b) && b[0] in multiset(a);
      HeadIsLeast(b, a[0]);
      HeadIsLeast(a, b[0]);
      KeyOrderIsTotal(a[0], b[0], b[0]);
      TailMultiset(a, b);
      assert SortedKeys(a[1..]) by {
        forall i, j | 0 <= i < j < |a[1..]| ensures KeyLe(a[1..][i], a[1..][j]) {
          assert a[1..][i] == a[i + 1] && a[1..][j] == a[j + 1];
        }
      }
      assert SortedKeys(b[1..]) by {
        forall i, j | 0 <= i < j < |b[1..]| ensures KeyLe(b[1..][i], b[1..][j]) {
          assert b[1..][i] == b[i + 1] && b[1..][j] == b[j + 1];
        }
      }
      SortedKeysUnique(a[1..], b[1..]);
      assert a == [a[0]] + a[1..] && b == [b[0]] + b[1..];
    }
  }

  lemma KeysConcat(cal: Calendar, a: seq<SemesterRow>, b: seq<SemesterRow>)
    ensures Keys(cal, a + b) == Keys(cal, a) + Keys(cal, b)
  {
  }

  /** The row at position j is one copy among the others. */
  lemma RemoveAt<T>(b: seq<T>, j: nat)
    requires j < |b|
    ensures multiset(b) == multiset(b[..j] + b[j + 1..]) + multiset{b[j]}
  {
    assert b == b[..j] + [b[j]] + b[j + 1..];
  }

  /** ... and its key one copy among the other rows' keys. */
  lemma KeysRemoveAt(cal: Calendar, b: seq<SemesterRow>, j: nat)
    requires j < |b|
    ensures multiset(Keys(cal, b)) == multiset(Keys(cal, b[..j] + b[j + 1..])) + multiset{Key(cal, b[j])}
  {
    assert b == b[..j] + [b[j]] + b[j + 1..];
    KeysConcat(cal, b[..j] + [b[j]], b[j + 1..]);
    KeysConcat(cal, b[..j], [b[j]]);
    KeysConcat(cal, b[..j], b[j + 1..]);
  }

  /** The first row's key is one copy among the other rows' keys. */
  lemma KeysFront(cal: Calendar, a: seq<SemesterRow>)
    requires a != []
    ensures multiset(Keys(cal, a)) == multiset(Keys(cal, a[1..])) + multiset{Key(cal, a[0])}
  {
    assert a == [a[0]] + a[1..];
    KeysConcat(cal, [a[0]], a[1..]);
  }

  /** The keys of a permutation are a permutation of the keys. */
  lemma {:induction false} KeysOfPermutation(cal: Calendar, a: seq<SemesterRow>, b: seq<SemesterRow>)
    requires multiset(a) == multiset(b)
    ensures multiset(Keys(cal, a)) == multiset(Keys(cal, b))
    decreases |a|
  {
    if a == [] {
      assert |b| == |multiset(b)| == 0;
    } else {
      assert a[0] in b by {
        assert a[0] in multiset(b);
      }
      var j :| 0 <= j < |b| && b[j] == a[0];
      TailsArePermutations(a, b, j);
      KeysOfPermutation(cal, a[1..], b[..j] + b[j + 1..]);
      KeysFront(cal, a);
      KeysRemoveAt(cal, b, j);
    }
  }

  /** Taking the first row out of one sequence and the same row out of a
      permutation of it leaves permutations. */
  lemma TailsArePermutations(a: seq<SemesterRow>, b: seq<SemesterRow>, j: nat)
    requires a != [] && j < |b| && b[j] == a[0] && multiset(a) == multiset(b)
    ensures multiset(a[1..]) == multiset(b[..j] + b[j + 1..])
  {
    var x, y, one := multiset(a[1..]), multiset(b[..j] + b[j + 1..]), multiset{a[0]};
    assert multiset(a) == one + x by {
      assert a == [a[0]] + a[1..];
    }
    assert multiset(b) == y + one by {
      RemoveAt(b, j);
    }
    assert x == (x + one) - one;
    assert y == (y + one) - one;
  }

  /** ORDER BY fixes the sequence of (year, rank) keys: two results holding the
      same rows in ORDER BY order can differ only by swapping rows whose keys
      are equal. */
  lemma OrderDeterminesKeys(cal: Calendar, a: seq<SemesterRow>, b: seq<SemesterRow>)
    requires multiset(a) == multiset(b)
    requires Chronological(cal, a) && Chronological(cal, b)
    ensures Keys(cal, a) == Keys(cal, b)
  {
    KeysOfPermutation(cal, a, b);
    SortedKeysUnique(Keys(cal, a), Keys(cal, b));
  }

  /** When every term is one the CASE ranks, the order also fixes the
      (term, year) of every position. */
  lemma OrderDeterminesTerms(cal: Calendar, a: seq<SemesterRow>, b: seq<SemesterRow>)
    requires multiset(a) == multiset(b)
    requires Chronological(cal, a) && Chronological(cal, b)
    requires forall i :: 0 <= i < |a| ==> Rank(cal, a[i].term).Some?
    ensures |a| == |b|
    ensures forall i :: 0 <= i < |a| ==> a[i].term == b[i].term && a[i].year == b[i].year
  {
    OrderDeterminesKeys(cal, a, b);
    assert |Keys(cal, a)| == |Keys(cal, b)|;
    forall i | 0 <= i < |a|
      ensures a[i].term == b[i].term && a[i].year == b[i].year
    {
      assert Keys(cal, a)[i] == Keys(cal, b)[i];
      RankInjective(cal, a[i].term, b[i].term);
    }
  }
}
