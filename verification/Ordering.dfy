/**
 * Lexicographic order on strings: the order Go and SQL use when they compare
 * timestamps and identifiers stored as text.
 */
module Ordering {

  predicate Less(a: string, b: string) {
    if b == [] then false
    else if a == [] then true
    else a[0] < b[0] || (a[0] == b[0] && Less(a[1..], b[1..]))
  }

  lemma {:induction false} LessIrreflexive(a: string)
    ensures !Less(a, a)
  {
    if a != [] {
      LessIrreflexive(a[1..]);
    }
  }

  lemma {:induction false} LessTransitive(a: string, b: string, c: string)
    requires Less(a, b) && Less(b, c)
    ensures Less(a, c)
  {
    if a != [] && a[0] == b[0] && b[0] == c[0] {
      LessTransitive(a[1..], b[1..], c[1..]);
    }
  }

  lemma {:induction false} LessTotal(a: string, b: string)
    ensures Less(a, b) || a == b || Less(b, a)
  {
    if a != [] && b != [] && a[0] == b[0] {
      LessTotal(a[1..], b[1..]);
      assert a == [a[0]] + a[1..] && b == [b[0]] + b[1..];
    }
  }

  /** At the first place where the texts differ, a ends or has the smaller character. */
  predicate FirstDiffers(a: string, b: string, i: nat) {
    i <= |a| && i < |b| && a[..i] == b[..i] && (i == |a| || a[i] < b[i])
  }

  /** One text is less than another exactly when it is a proper prefix, or smaller where they first differ. */
  lemma {:induction false} LessIsLexicographic(a: string, b: string)
    ensures Less(a, b) <==> exists i: nat :: FirstDiffers(a, b, i)
  {
    if a == [] {
      if b != [] {
        assert FirstDiffers(a, b, 0);
      }
    } else if b != [] {
      LessIsLexicographic(a[1..], b[1..]);
      if a[0] < b[0] {
        assert FirstDiffers(a, b, 0);
      } else if a[0] == b[0] && Less(a[1..], b[1..]) {
        var i: nat :| FirstDiffers(a[1..], b[1..], i);
        assert a[..i + 1] == [a[0]] + a[1..][..i] && b[..i + 1] == [b[0]] + b[1..][..i];
        assert FirstDiffers(a, b, i + 1);
      }
      if i: nat :| FirstDiffers(a, b, i) {
        if i > 0 {
          assert a[..i][0] == b[..i][0];
          assert a[1..][..i - 1] == a[..i][1..] && b[1..][..i - 1] == b[..i][1..];
          assert FirstDiffers(a[1..], b[1..], i - 1);
        }
      }
    }
  }

  /** Order of a pair of texts: the first decides, the second breaks ties. */
  predicate PairLess(a: (string, string), b: (string, string)) {
    Less(a.0, b.0) || (a.0 == b.0 && Less(a.1, b.1))
  }

  lemma PairLessIrreflexive(a: (string, string))
    ensures !PairLess(a, a)
  {
    LessIrreflexive(a.0);
    LessIrreflexive(a.1);
  }

  lemma PairLessTransitive(a: (string, string), b: (string, string), c: (string, string))
    requires PairLess(a, b) && PairLess(b, c)
    ensures PairLess(a, c)
  {
    LessIrreflexive(b.0);
    if a.0 == b.0 {
      if b.0 == c.0 {
        LessTransitive(a.1, b.1, c.1);
      }
    } else if b.0 != c.0 {
      LessTransitive(a.0, b.0, c.0);
    }
  }

  lemma PairLessTotal(a: (string, string), b: (string, string))
    ensures PairLess(a, b) || a == b || PairLess(b, a)
  {
    LessTotal(a.0, b.0);
    LessTotal(a.1, b.1);
  }

  lemma PairLessAsymmetric(a: (string, string), b: (string, string))
    requires PairLess(a, b)
    ensures !PairLess(b, a) && a != b
  {
    PairLessIrreflexive(a);
    if PairLess(b, a) {
      PairLessTransitive(a, b, a);
    }
  }
}
