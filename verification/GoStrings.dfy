/** Go strings as byte sequences, their order, and sorted lists of them. */
module GoStrings {

  type Byte = b: int | 0 <= b < 256
  type GoString = seq<Byte>

  /** The `<` of Go strings: bytewise lexicographic. */
  predicate Less(a: GoString, b: GoString) {
    b != [] && (a == [] || a[0] < b[0] || (a[0] == b[0] && Less(a[1..], b[1..])))
  }

  /** The strings share the first i bytes; then a ends, or has the smaller byte. */
  ghost predicate LessFrom(a: GoString, b: GoString, i: nat) {
    i <= |a| && i < |b| && a[..i] == b[..i] && (i == |a| || a[i] < b[i])
  }

  lemma FirstBytes(a: GoString, b: GoString, i: nat)
    requires a != [] && b != []
    ensures i > 0 && LessFrom(a, b, i) ==> a[0] == b[0]
  {
    if i > 0 && LessFrom(a, b, i) {
      assert a[..i][0] == a[0] && b[..i][0] == b[0];
    }
  }

  /** Less is the lexicographic order by unsigned bytes: decided at the first difference, or by a's end. */
  lemma {:induction false} LessExactly(a: GoString, b: GoString)
    ensures Less(a, b) <==> exists i: nat :: LessFrom(a, b, i)
  {
    if b == [] {
      assert forall i: nat :: !LessFrom(a, b, i);
    } else if a == [] || a[0] != b[0] {
      assert a == [] || a[0] < b[0] ==> LessFrom(a, b, 0);
      forall i: nat | i > 0 && a != []
        ensures !LessFrom(a, b, i)
      {
        FirstBytes(a, b, i);
      }
    } else {
      LessExactly(a[1..], b[1..]);
      LessOneOn(a, b);
    }
  }

  lemma LessOneOn(a: GoString, b: GoString)
    requires a != [] && b != [] && a[0] == b[0]
    ensures (exists i: nat :: LessFrom(a, b, i)) <==> (exists i: nat :: LessFrom(a[1..], b[1..], i))
  {
    if i: nat :| LessFrom(a, b, i) {
      assert i > 0;
      assert a[1..][..i - 1] == a[..i][1..] && b[1..][..i - 1] == b[..i][1..];
      assert LessFrom(a[1..], b[1..], i - 1);
    }
    if j: nat :| LessFrom(a[1..], b[1..], j) {
      assert a[..j + 1] == [a[0]] + a[1..][..j] && b[..j + 1] == [b[0]] + b[1..][..j];
      assert LessFrom(a, b, j + 1);
    }
  }

  predicate AtMost(a: GoString, b: GoString) {
    a == b || Less(a, b)
  }

  lemma {:induction false} LessTotal(a: GoString, b: GoString)
    ensures Less(a, b) || a == b || Less(b, a)
  {
    if a != [] && b != [] && a[0] == b[0] {
      LessTotal(a[1..], b[1..]);
      assert a == [a[0]] + a[1..] && b == [b[0]] + b[1..];
    }
  }

  lemma {:induction false} LessIrreflexive(a: GoString)
    ensures !Less(a, a)
  {
    if a != [] {
      LessIrreflexive(a[1..]);
    }
  }

  lemma {:induction false} LessTransitive(a: GoString, b: GoString, c: GoString)
    requires Less(a, b) && Less(b, c)
    ensures Less(a, c)
  {
    if a != [] && a[0] == b[0] && b[0] == c[0] {
      LessTransitive(a[1..], b[1..], c[1..]);
    }
  }

  // ---------- lists in ascending order without repetitions ----------

  ghost predicate Increasing(s: seq<GoString>) {
    s != [] ==> (forall x | x in s[1..] :: Less(s[0], x)) && Increasing(s[1..])
  }

  /** sort.Strings, by insertion. */
  function SortStrings(s: seq<GoString>): seq<GoString> {
    if s == [] then [] else InsertString(s[0], SortStrings(s[1..]))
  }

  function InsertString(x: GoString, s: seq<GoString>): seq<GoString> {
    if s == [] || AtMost(x, s[0]) then [x] + s else [s[0]] + InsertString(x, s[1..])
  }

  lemma {:induction false} InsertKeepsIncreasing(x: GoString, s: seq<GoString>)
    requires Increasing(s) && x !in s
    ensures Increasing(InsertString(x, s))
    ensures forall y :: y in InsertString(x, s) <==> y == x || y in s
  {
    if s != [] {
      assert s == [s[0]] + s[1..];
      if AtMost(x, s[0]) {
        assert Less(x, s[0]);
        forall y | y in s
          ensures Less(x, y)
        {
          if y != s[0] {
            LessTransitive(x, s[0], y);
          }
        }
        assert ([x] + s)[1..] == s;
      } else {
        LessTotal(x, s[0]);
        InsertKeepsIncreasing(x, s[1..]);
        assert InsertString(x, s)[1..] == InsertString(x, s[1..]);
      }
    }
  }

  ghost predicate NoRepeats(s: seq<GoString>) {
    s != [] ==> s[0] !in s[1..] && NoRepeats(s[1..])
  }

  lemma {:induction false} SortStringsIncreasing(s: seq<GoString>)
    requires NoRepeats(s)
    ensures Increasing(SortStrings(s))
    ensures forall y :: y in SortStrings(s) <==> y in s
  {
    if s != [] {
      SortStringsIncreasing(s[1..]);
      InsertKeepsIncreasing(s[0], SortStrings(s[1..]));
      assert s == [s[0]] + s[1..];
    }
  }

  lemma Occupied(s: seq<GoString>, t: seq<GoString>)
    requires forall x | x in s :: x in t
    ensures t == [] ==> s == []
  {
    if s != [] {
      assert s[0] in s;
      assert s[0] in t;
    }
  }

  /** There is one ascending list of the members of a set. */
  lemma {:induction false} IncreasingUnique(s: seq<GoString>, t: seq<GoString>)
    requires Increasing(s) && Increasing(t)
    requires forall x :: x in s <==> x in t
    ensures s == t
  {
    if s == [] {
      Occupied(t, s);
    } else if t == [] {
      Occupied(s, t);
    } else {
      assert s == [s[0]] + s[1..] && t == [t[0]] + t[1..];
      LessIrreflexive(s[0]);
      LessIrreflexive(t[0]);
      if s[0] != t[0] {
        assert s[0] in s && s[0] in t && t[0] in t && t[0] in s;
        assert s[0] in t[1..] && t[0] in s[1..];
        LessTransitive(s[0], t[0], s[0]);
        assert false;
      }
      forall x
        ensures x in s[1..] <==> x in t[1..]
      {
        assert x in s[1..] ==> x in t && x != s[0];
        assert x in t[1..] ==> x in s && x != t[0];
      }
      IncreasingUnique(s[1..], t[1..]);
    }
  }
}
