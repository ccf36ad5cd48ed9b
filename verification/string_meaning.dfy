/** What the shared string operations mean, said without them. */
module StringMeaning {
  import opened Sequences
  import opened Strings
  import opened Ordering

  /** `s[i..j]` is `s` without the white space at both its ends. */
  ghost predicate Bare(isSpace: char -> bool, s: string, i: int, j: int) {
    && 0 <= i <= j <= |s| && (forall k :: 0 <= k < i || j <= k < |s| ==> isSpace(s[k]))
    && (i < j ==> !isSpace(s[i]) && !isSpace(s[j - 1]))
  }

  ghost predicate Trimmed(isSpace: char -> bool, s: string, r: string) {
    exists i, j :: Bare(isSpace, s, i, j) && r == s[i..j]
  }

  lemma {:induction false} StripRightMeaning(isSpace: char -> bool, s: string)
    ensures var r := StripRight(isSpace, s);
      r <= s && (forall k :: |r| <= k < |s| ==> isSpace(s[k])) && (r != "" ==> !isSpace(Last(r)))
  {
    if s != "" && isSpace(Last(s)) {
      StripRightMeaning(isSpace, Init(s));
    }
  }

  lemma StripRightUnique(isSpace: char -> bool, s: string, r: string)
    requires r <= s && (forall k :: |r| <= k < |s| ==> isSpace(s[k])) && (r != "" ==> !isSpace(Last(r)))
    ensures r == StripRight(isSpace, s)
  {
    StripRightMeaning(isSpace, s);
    var q := StripRight(isSpace, s);
    assert r != "" ==> Last(r) == s[|r| - 1];
    assert q != "" ==> Last(q) == s[|q| - 1];
    assert r == s[..|r|] && q == s[..|q|];
  }

  lemma {:induction false} StripLeftMeaning(isSpace: char -> bool, s: string) returns (i: nat)
    ensures i <= |s| && StripLeft(isSpace, s) == s[i..]
    ensures forall k :: 0 <= k < i ==> isSpace(s[k])
    ensures i < |s| ==> !isSpace(s[i])
  {
    i := 0;
    if s != "" && isSpace(s[0]) {
      var rest := StripLeftMeaning(isSpace, s[1..]);
      i := rest + 1;
      forall k | 1 <= k < i ensures isSpace(s[k]) {
        assert s[k] == s[1..][k - 1];
      }
    }
  }

  lemma TrimmedIsStrip(isSpace: char -> bool, s: string)
    ensures Trimmed(isSpace, s, Strip(isSpace, s))
  {
    var i := StripLeftMeaning(isSpace, s);
    StripRightMeaning(isSpace, s[i..]);
    var r := Strip(isSpace, s);
    var j := i + |r|;
    assert r == s[i..j];
    forall k | j <= k < |s| ensures isSpace(s[k]) {
      assert s[k] == s[i..][k - i];
    }
    assert r != "" ==> Last(r) == s[j - 1];
    assert Bare(isSpace, s, i, j);
  }

  lemma BareUnique(isSpace: char -> bool, s: string, i: int, j: int, i': int, j': int)
    requires Bare(isSpace, s, i, j) && Bare(isSpace, s, i', j')
    ensures s[i..j] == s[i'..j']
  {}

  /** Stripping takes exactly the white space at the two ends. */
  lemma StripMeaning(isSpace: char -> bool, s: string, r: string)
    ensures r == Strip(isSpace, s) <==> Trimmed(isSpace, s, r)
  {
    TrimmedIsStrip(isSpace, s);
    var i, j :| Bare(isSpace, s, i, j) && Strip(isSpace, s) == s[i..j];
    forall i', j' | Bare(isSpace, s, i', j') ensures s[i..j] == s[i'..j'] {
      BareUnique(isSpace, s, i, j, i', j');
    }
  }

  /** What strips to nothing is all white space. */
  lemma BlankMeaning(isSpace: char -> bool, s: string)
    ensures Strip(isSpace, s) == "" <==> forall i :: 0 <= i < |s| ==> isSpace(s[i])
  {
    TrimmedIsStrip(isSpace, s);
    var i, j :| Bare(isSpace, s, i, j) && Strip(isSpace, s) == s[i..j];
    assert Strip(isSpace, s) == "" <==> i == j;
  }

  /** A blank string is empty or starts with white space. */
  lemma BlankStarts(isSpace: char -> bool, s: string)
    ensures Strip(isSpace, s) == "" ==> s == "" || isSpace(s[0])
  {
    BlankMeaning(isSpace, s);
  }

  lemma ContainsMeaning(text: string, fragment: string)
    ensures Contains(text, fragment) <==> exists a, b :: text == a + fragment + b
  {
    if Contains(text, fragment) {
      var i :| 0 <= i <= |text| && OccursAt(text, fragment, i);
      assert text == text[..i] + fragment + text[i + |fragment|..];
    }
    forall a, b | text == a + fragment + b ensures Contains(text, fragment) {
      assert OccursAt(text, fragment, |a|);
    }
  }

  lemma {:induction false} JoinLinesAppend(parts: seq<string>, last: string)
    ensures JoinLines(parts + [last]) == if parts == [] then last else JoinLines(parts) + "\n" + last
  {
    if parts == [] {
      assert parts + [last] == [last];
    } else {
      JoinLinesAppend(parts[1..], last);
      assert (parts + [last])[0] == parts[0] && (parts + [last])[1..] == parts[1..] + [last];
    }
  }

  /** The number that digits spell. */
  ghost function Spelt(s: string): int {
    if s == "" then 0 else 10 * Spelt(s[..|s| - 1]) + (s[|s| - 1] as int - '0' as int)
  }

  /** A number is written in its digits, without a zero in front. */
  lemma {:induction false} DecimalSpells(n: nat)
    ensures var s := Decimal(n);
      && s != "" && Spelt(s) == n && (forall i :: 0 <= i < |s| ==> '0' <= s[i] <= '9') && (n > 0 ==> s[0] != '0')
  {
    DigitSpells(n % 10);
    if n >= 10 {
      DecimalSpells(n / 10);
      assert Decimal(n)[..|Decimal(n)| - 1] == Decimal(n / 10);
    } else {
      assert Decimal(n)[..0] == "";
    }
  }

  lemma DigitSpells(d: nat)
    requires d < 10
    ensures Digit(d) as int - '0' as int == d
  {
    var digits := "0123456789";
    assert digits[d] as int == '0' as int + d;
  }

  ghost predicate SmallerAt(a: string, b: string, i: int) {
    0 <= i < |a| && i < |b| && a[i] < b[i] && forall k :: 0 <= k < i ==> a[k] == b[k]
  }

  /** `a` comes no later than `b` in a dictionary: it is a prefix of it, or smaller where they first differ. */
  ghost predicate NoLater(a: string, b: string) {
    a <= b || exists i :: SmallerAt(a, b, i)
  }

  lemma {:induction false} StrLeMeaning(a: string, b: string)
    ensures StrLe(a, b) <==> NoLater(a, b)
  {
    if a != "" && b != "" {
      if a[0] == b[0] {
        StrLeMeaning(a[1..], b[1..]);
        PrefixTail(a, b);
        forall i ensures SmallerAt(a[1..], b[1..], i) <==> i >= 0 && SmallerAt(a, b, i + 1) {
          SmallerTail(a, b, i);
        }
        if i :| SmallerAt(a, b, i) {
          assert SmallerAt(a[1..], b[1..], i - 1);
        }
      } else if a[0] < b[0] {
        assert SmallerAt(a, b, 0);
      }
    }
  }

  lemma PrefixTail(a: string, b: string)
    requires a != "" && b != "" && a[0] == b[0]
    ensures a <= b <==> a[1..] <= b[1..]
  {
    assert a == [a[0]] + a[1..] && b == [b[0]] + b[1..];
  }

  lemma SmallerTail(a: string, b: string, i: int)
    requires a != "" && b != "" && a[0] == b[0]
    ensures SmallerAt(a[1..], b[1..], i) <==> i >= 0 && SmallerAt(a, b, i + 1)
  {
    var u, v := a[1..], b[1..];
    if SmallerAt(u, v, i) {
      forall k | 0 <= k < i + 1 ensures a[k] == b[k] {
        assert k > 0 ==> u[k - 1] == v[k - 1];
      }
    } else if i >= 0 && SmallerAt(a, b, i + 1) {
      forall k | 0 <= k < i ensures u[k] == v[k] {
        assert a[k + 1] == b[k + 1];
      }
    }
  }
}
