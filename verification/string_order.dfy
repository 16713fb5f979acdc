/**
 The ordering `std::set<std::string>` keeps its elements in: `std::string`'s
 `operator<`, a lexicographic comparison in which the first differing
 character decides and a proper prefix sorts first.
 */
module StringOrder {

  /** `std::string::compare`'s description of `a < b`: after a common
      prefix of length `k`, either `a` ends while `b` goes on, or `a`'s next
      character is the smaller one. */
  ghost predicate Lex(a: string, b: string)
  {
    exists k :: 0 <= k <= |a| && k < |b| && a[..k] == b[..k] && (k == |a| || a[k] < b[k])
  }

  lemma LexHeadsDiffer(a: string, b: string)
    requires |a| > 0 && |b| > 0 && a[0] != b[0]
    ensures Lex(a, b) <==> a[0] < b[0]
  {
    if a[0] < b[0] {
      assert a[..0] == b[..0];
    }
  }

  lemma LexHeadsEqual(a: string, b: string)
    requires |a| > 0 && |b| > 0 && a[0] == b[0]
    ensures Lex(a, b) <==> Lex(a[1..], b[1..])
  {
    var a', b' := a[1..], b[1..];
    if Lex(a, b) {
      var k :| 0 <= k <= |a| && k < |b| && a[..k] == b[..k] && (k == |a| || a[k] < b[k]);
      assert k > 0;
      assert a'[..k - 1] == a[..k][1..] && b'[..k - 1] == b[..k][1..];
    }
    if Lex(a', b') {
      var k :| 0 <= k <= |a'| && k < |b'| && a'[..k] == b'[..k] && (k == |a'| || a'[k] < b'[k]);
      assert a[..k + 1] == [a[0]] + a'[..k] && b[..k + 1] == [b[0]] + b'[..k];
    }
  }

  /** `Lex` decided on the first characters. */
  lemma LexStep(a: string, b: string)
    ensures Lex(a, b) <==>
      if |a| == 0 then |b| > 0
      else if |b| == 0 then false
      else if a[0] != b[0] then a[0] < b[0]
      else Lex(a[1..], b[1..])
  {
    if |a| == 0 && |b| > 0 {
      assert a[..0] == b[..0];
    } else if |a| > 0 && |b| > 0 {
      if a[0] != b[0] {
        LexHeadsDiffer(a, b);
      } else {
        LexHeadsEqual(a, b);
      }
    }
  }

  /** `a` sorts strictly before `b`, decided one character at a time. */
  predicate Less(a: string, b: string)
    ensures Less(a, b) <==> Lex(a, b)
  {
    LexStep(a, b);
    if |a| == 0 then |b| > 0
    else if |b| == 0 then false
    else if a[0] != b[0] then a[0] < b[0]
    else Less(a[1..], b[1..])
  }

  /** No string sorts before itself. */
  lemma {:induction false} Irreflexive(a: string)
    ensures !Less(a, a)
  {
    if |a| > 0 {
      Irreflexive(a[1..]);
    }
  }

  /** Two strings never sort before each other. */
  lemma {:induction false} Asymmetric(a: string, b: string)
    requires Less(a, b)
    ensures !Less(b, a)
  {
    if |a| > 0 && a[0] == b[0] {
      Asymmetric(a[1..], b[1..]);
    }
  }

  lemma {:induction false} Transitive(a: string, b: string, c: string)
    requires Less(a, b) && Less(b, c)
    ensures Less(a, c)
  {
    if |a| > 0 && a[0] == b[0] && b[0] == c[0] {
      Transitive(a[1..], b[1..], c[1..]);
    }
  }

  /** Any two distinct strings are ordered one way or the other. */
  lemma {:induction false} Total(a: string, b: string)
    requires a != b
    ensures Less(a, b) || Less(b, a)
  {
    if |a| > 0 && |b| > 0 && a[0] == b[0] {
      assert a == [a[0]] + a[1..] && b == [b[0]] + b[1..];
      Total(a[1..], b[1..]);
    }
  }
}
