/** strings.Split and strings.Join of Go for a one-character separator, and sort.Strings. */
module Text {
  import opened Sequences

  function Split(s: string, sep: char): (parts: seq<string>)
    ensures parts != []
    ensures forall p :: p in parts ==> sep !in p
  {
    if s == "" then [""]
    else
      var rest := Split(s[1..], sep);
      if s[0] == sep then [""] + rest else Prepend(s[0], rest)
  }

  /** One more character in front of the first part. */
  function Prepend(c: char, parts: seq<string>): seq<string>
    requires parts != []
  {
    [[c] + parts[0]] + parts[1..]
  }

  function Join(parts: seq<string>, sep: char): string {
    if parts == [] then ""
    else if |parts| == 1 then parts[0]
    else parts[0] + [sep] + Join(parts[1..], sep)
  }

  lemma {:induction false} JoinOfSplit(s: string, sep: char)
    ensures Join(Split(s, sep), sep) == s
  {
    if s != "" {
      JoinOfSplit(s[1..], sep);
      var rest := Split(s[1..], sep);
      if s[0] == sep {
        assert ([""] + rest)[1..] == rest;
      } else {
        assert Prepend(s[0], rest)[1..] == rest[1..];
      }
      assert s == [s[0]] + s[1..];
    }
  }

  lemma PrependConcat(c: char, a: seq<string>, b: seq<string>)
    requires a != []
    ensures Prepend(c, a + b) == Prepend(c, a) + b
  {
  }

  lemma {:induction false} SplitConcat(a: string, b: string, sep: char)
    ensures Split(a + [sep] + b, sep) == Split(a, sep) + Split(b, sep)
  {
    var whole := a + [sep] + b;
    if a == "" {
      assert whole[1..] == b;
    } else {
      assert whole[1..] == a[1..] + [sep] + b && whole[0] == a[0];
      SplitConcat(a[1..], b, sep);
      var rest, more := Split(a[1..], sep), Split(b, sep);
      assert Split(whole[1..], sep) == rest + more;
      PrependConcat(a[0], rest, more);
      hide Prepend;
    }
  }

  lemma {:induction false} SplitWhole(s: string, sep: char)
    requires sep !in s
    ensures Split(s, sep) == [s]
  {
    if s != "" {
      assert sep !in s[1..];
      SplitWhole(s[1..], sep);
      assert s == [s[0]] + s[1..];
    }
  }

  /** Splitting undoes joining for every list of at least one part without the separator. */
  lemma {:induction false} SplitOfJoin(parts: seq<string>, sep: char)
    requires parts != [] && forall p :: p in parts ==> sep !in p
    ensures Split(Join(parts, sep), sep) == parts
  {
    SplitWhole(parts[0], sep);
    if |parts| > 1 {
      SplitOfJoin(parts[1..], sep);
      SplitConcat(parts[0], Join(parts[1..], sep), sep);
      assert parts == [parts[0]] + parts[1..];
    }
  }

  // ----- sort.Strings -----

  predicate LexLeq(a: string, b: string) {
    a == "" || (b != "" && (a[0] < b[0] || (a[0] == b[0] && LexLeq(a[1..], b[1..]))))
  }

  function Lex(): (string, string) -> bool {
    (a: string, b: string) => LexLeq(a, b)
  }

  lemma {:induction false} LexTotal(a: string, b: string)
    ensures LexLeq(a, b) || LexLeq(b, a)
    ensures LexLeq(a, b) && LexLeq(b, a) ==> a == b
  {
    if a != "" && b != "" && a[0] == b[0] {
      LexTotal(a[1..], b[1..]);
      assert a == [a[0]] + a[1..] && b == [b[0]] + b[1..];
    }
  }

  lemma {:induction false} LexTransitive(a: string, b: string, d: string)
    requires LexLeq(a, b) && LexLeq(b, d)
    ensures LexLeq(a, d)
  {
    if a != "" && a[0] == b[0] == d[0] {
      LexTransitive(a[1..], b[1..], d[1..]);
    }
  }

  /** A string comes before one it is a prefix of, or that has the larger character where they first differ. */
  lemma {:induction false} LexMeaning(a: string, b: string)
    ensures LexLeq(a, b) <==> a <= b || exists i :: 0 <= i < |a| && i < |b| && a[..i] == b[..i] && a[i] < b[i]
  {
    if a != "" && b != "" {
      if a[0] == b[0] {
        LexMeaning(a[1..], b[1..]);
        assert a <= b <==> a[1..] <= b[1..] by {
          assert a == [a[0]] + a[1..] && b == [b[0]] + b[1..];
        }
        if i :| 0 <= i < |a[1..]| && i < |b[1..]| && a[1..][..i] == b[1..][..i] && a[1..][i] < b[1..][i] {
          assert a[..i + 1] == [a[0]] + a[1..][..i] && b[..i + 1] == [b[0]] + b[1..][..i];
          assert a[i + 1] < b[i + 1];
        }
        if i :| 0 <= i < |a| && i < |b| && a[..i] == b[..i] && a[i] < b[i] {
          assert i > 0;
          assert a[1..][..i - 1] == a[..i][1..] && b[1..][..i - 1] == b[..i][1..];
          assert a[1..][i - 1] < b[1..][i - 1];
        }
      } else if a[0] < b[0] {
        assert a[..0] == b[..0];
      } else if i :| 0 <= i < |a| && i < |b| && a[..i] == b[..i] && a[i] < b[i] {
        assert i > 0;
        assert a[..i][0] == b[..i][0];
      }
    }
  }

  /** The order sort.Strings uses has no ties, so its result depends only on which strings there are. */
  lemma LexIsTotal()
    ensures TotalPreorder(Lex())
    ensures forall s: seq<string> :: NoTies(s, Lex())
  {
    forall a, b ensures Lex()(a, b) || Lex()(b, a) {
      LexTotal(a, b);
    }
    forall a, b, d | Lex()(a, b) && Lex()(b, d) ensures Lex()(a, d) {
      LexTransitive(a, b, d);
    }
    forall s: seq<string> ensures NoTies(s, Lex()) {
      forall i, j | 0 <= i < |s| && 0 <= j < |s| && Lex()(s[i], s[j]) && Lex()(s[j], s[i]) ensures s[i] == s[j] {
        LexTotal(s[i], s[j]);
      }
    }
  }

  function SortStrings(s: seq<string>): (r: seq<string>)
    ensures IsSortOf(r, s, Lex())
  {
    LexIsTotal();
    Sort(s, Lex())
  }

  lemma SortStringsUnique(r: seq<string>, s: seq<string>)
    requires IsSortOf(r, s, Lex())
    ensures r == SortStrings(s)
  {
    LexIsTotal();
    SortUnique(r, SortStrings(s), Lex());
  }
}
