/** The order of file names: strcmp on their characters. */
module Names {

  function Compare(a: string, b: string): int {
    if a == "" && b == "" then 0
    else if a == "" then -1
    else if b == "" then 1
    else if a[0] != b[0] then (if a[0] < b[0] then -1 else 1)
    else Compare(a[1..], b[1..])
  }

  predicate Less(a: string, b: string) {
    Compare(a, b) < 0
  }

  /** a and b agree up to i, where a ends first or has the smaller character. */
  predicate DifferAt(a: string, b: string, i: nat) {
    && i <= |a| && i < |b| && a[..i] == b[..i]
    && (i == |a| || a[i] < b[i])
  }

  /** a comes first if it is a proper prefix of b, or has the smaller character where they first differ. */
  ghost predicate Before(a: string, b: string) {
    exists i: nat :: DifferAt(a, b, i)
  }

  /** That is what Less says. */
  lemma {:induction false} LessIsBefore(a: string, b: string)
    ensures Less(a, b) <==> Before(a, b)
  {
    if a == "" || b == "" || a[0] != b[0] {
      if Less(a, b) {
        assert DifferAt(a, b, 0);
      }
    } else {
      LessIsBefore(a[1..], b[1..]);
      assert forall i: nat :: i < |a| && i < |b| ==> a[..i + 1] == [a[0]] + a[1..][..i] && b[..i + 1] == [b[0]] + b[1..][..i];
      if Less(a, b) {
        var i: nat :| DifferAt(a[1..], b[1..], i);
        assert DifferAt(a, b, i + 1);
      }
      if Before(a, b) {
        var i: nat :| DifferAt(a, b, i);
        assert i > 0;
        assert a[..i][1..] == a[1..][..i - 1] && b[..i][1..] == b[1..][..i - 1];
        assert DifferAt(a[1..], b[1..], i - 1);
      }
    }
  }

  lemma {:induction false} CompareZero(a: string, b: string)
    ensures Compare(a, b) == 0 <==> a == b
  {
    if a != "" && b != "" && a[0] == b[0] {
      CompareZero(a[1..], b[1..]);
      assert a == [a[0]] + a[1..] && b == [b[0]] + b[1..];
    }
  }

  lemma {:induction false} CompareFlip(a: string, b: string)
    ensures Compare(a, b) == -Compare(b, a)
  {
    if a != "" && b != "" && a[0] == b[0] {
      CompareFlip(a[1..], b[1..]);
    }
  }

  lemma {:induction false} LessTrans(a: string, b: string, c: string)
    requires Less(a, b) && Less(b, c)
    ensures Less(a, c)
  {
    if a != "" && a[0] == b[0] && b[0] == c[0] {
      LessTrans(a[1..], b[1..], c[1..]);
    }
  }

  /** Less is a strict total order. */
  lemma Total(a: string, b: string)
    ensures Less(a, b) || a == b || Less(b, a)
    ensures Less(a, b) ==> a != b && !Less(b, a)
    ensures Compare(a, b) > 0 <==> Less(b, a)
    ensures Compare(a, b) == 0 <==> a == b
  {
    CompareZero(a, b);
    CompareFlip(a, b);
  }
}
