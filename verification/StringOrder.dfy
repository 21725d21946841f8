/** The byte order of UTF-8 strings, which is the order of their code points. */
module StringOrder {
  import opened Sorting

  predicate StrLeq(a: string, b: string) {
    a == [] || (b != [] && (a[0] < b[0] || (a[0] == b[0] && StrLeq(a[1..], b[1..]))))
  }

  lemma {:induction false} StrTotal(a: string, b: string)
    ensures StrLeq(a, b) || StrLeq(b, a)
  {
    if a != [] && b != [] { StrTotal(a[1..], b[1..]); }
  }

  lemma {:induction false} StrTransitive(a: string, b: string, c: string)
    requires StrLeq(a, b) && StrLeq(b, c)
    ensures StrLeq(a, c)
  {
    if a != [] && a[0] == b[0] == c[0] { StrTransitive(a[1..], b[1..], c[1..]); }
  }

  lemma {:induction false} StrAntisymmetric(a: string, b: string)
    requires StrLeq(a, b) && StrLeq(b, a)
    ensures a == b
  {
    if a != [] {
      StrAntisymmetric(a[1..], b[1..]);
      assert a == [a[0]] + a[1..] && b == [b[0]] + b[1..];
    }
  }

  /** Strings are totally ordered. */
  lemma StringsAreOrdered()
    ensures TotalPreorder(StrLeq)
    ensures forall a, b :: StrLeq(a, b) && StrLeq(b, a) ==> a == b
  {
    forall a, b ensures StrLeq(a, b) || StrLeq(b, a) { StrTotal(a, b); }
    forall a, b, c | StrLeq(a, b) && StrLeq(b, c) ensures StrLeq(a, c) { StrTransitive(a, b, c); }
    forall a, b | StrLeq(a, b) && StrLeq(b, a) ensures a == b { StrAntisymmetric(a, b); }
  }

  /** `a` comes before `b`: at the first place where they differ, `a` ends or has the smaller
      character. */
  ghost predicate Before(a: string, b: string) { exists p :: DiffersAt(a, b, p) }

  ghost predicate DiffersAt(a: string, b: string, p: nat) {
    p <= |a| && p < |b| && a[..p] == b[..p] && (p == |a| || a[p] < b[p])
  }

  lemma {:induction false} LeqGivesPlace(a: string, b: string) returns (p: nat)
    requires StrLeq(a, b) && a != b
    ensures DiffersAt(a, b, p)
  {
    if a == [] || a[0] < b[0] {
      p := 0;
    } else {
      assert a == [a[0]] + a[1..] && b == [b[0]] + b[1..];
      p := LeqGivesPlace(a[1..], b[1..]);
      p := p + 1;
      assert a[..p] == [a[0]] + a[1..][..p - 1] && b[..p] == [b[0]] + b[1..][..p - 1];
    }
  }

  lemma {:induction false} PlaceGivesLeq(a: string, b: string, p: nat)
    requires DiffersAt(a, b, p)
    ensures StrLeq(a, b) && a != b
  {
    if p > 0 {
      assert a[0] == a[..p][0] == b[..p][0] == b[0];
      assert a[1..][..p - 1] == a[..p][1..] && b[1..][..p - 1] == b[..p][1..];
      PlaceGivesLeq(a[1..], b[1..], p - 1);
    }
  }

  /** The comparison is that of the characters at the first difference. */
  lemma StrLeqMeans(a: string, b: string)
    ensures StrLeq(a, b) <==> a == b || Before(a, b)
  {
    if StrLeq(a, b) && a != b { var p := LeqGivesPlace(a, b); }
    if Before(a, b) {
      var p :| DiffersAt(a, b, p);
      PlaceGivesLeq(a, b, p);
    }
    if a == b { Reflexive(a); }
  }

  lemma {:induction false} Reflexive(a: string)
    ensures StrLeq(a, a)
  {
    if a != [] { Reflexive(a[1..]); }
  }
}
