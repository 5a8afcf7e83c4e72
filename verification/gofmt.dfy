/** The `%v` rendering of a Go `map[string]string`, which `fmt` prints as
    `map[k1:v1 k2:v2]` with the keys in ascending order. */
module GoFmt {
  import opened Strings

  /** `a <= b` in Go's string order (byte-wise on UTF-8, which agrees with
      code-point order). */
  predicate Below(a: string, b: string)
    decreases |a|
  {
    |a| == 0 || (|b| > 0 && (a[0] < b[0] || (a[0] == b[0] && Below(a[1..], b[1..]))))
  }

  lemma {:induction false} BelowReflexive(a: string)
    ensures Below(a, a)
    decreases |a|
  {
    if |a| > 0 {
      BelowReflexive(a[1..]);
    }
  }

  lemma {:induction false} BelowTotal(a: string, b: string)
    ensures Below(a, b) || Below(b, a)
    decreases |a|
  {
    if |a| > 0 && |b| > 0 && a[0] == b[0] {
      BelowTotal(a[1..], b[1..]);
    }
  }

  lemma {:induction false} BelowAntisymmetric(a: string, b: string)
    requires Below(a, b) && Below(b, a)
    ensures a == b
    decreases |a|
  {
    if |a| > 0 {
      BelowAntisymmetric(a[1..], b[1..]);
      assert a == [a[0]] + a[1..];
      assert b == [b[0]] + b[1..];
    }
  }

  lemma {:induction false} BelowTransitive(a: string, b: string, c: string)
    requires Below(a, b) && Below(b, c)
    ensures Below(a, c)
    decreases |a|
  {
    if |a| > 0 && a[0] == b[0] && b[0] == c[0] {
      BelowTransitive(a[1..], b[1..], c[1..]);
    }
  }

  predicate IsLeast(m: string, ks: set<string>) {
    m in ks && forall x :: x in ks ==> Below(m, x)
  }

  lemma {:induction false} LeastExists(ks: set<string>)
    requires ks != {}
    ensures exists m :: IsLeast(m, ks)
    decreases |ks|
  {
    var x :| x in ks;
    BelowReflexive(x);
    if ks == {x} {
      assert IsLeast(x, ks);
    } else {
      LeastExists(ks - {x});
      var m :| IsLeast(m, ks - {x});
      BelowTotal(m, x);
      if Below(m, x) {
        assert IsLeast(m, ks);
      } else {
        forall y | y in ks
          ensures Below(x, y)
        {
          if y != x {
            BelowTransitive(x, m, y);
          }
        }
        assert IsLeast(x, ks);
      }
    }
  }

  lemma LeastUnique(ks: set<string>)
    ensures forall m1, m2 :: IsLeast(m1, ks) && IsLeast(m2, ks) ==> m1 == m2
  {
    forall m1, m2 | IsLeast(m1, ks) && IsLeast(m2, ks)
      ensures m1 == m2
    {
      BelowAntisymmetric(m1, m2);
    }
  }

  /** The keys in ascending order, each exactly once. */
  function SortedKeys(ks: set<string>): (r: seq<string>)
    ensures |r| == |ks|
    ensures forall x :: x in ks <==> x in r
    ensures forall i, j :: 0 <= i < j < |r| ==> Below(r[i], r[j]) && r[i] != r[j]
    decreases |ks|
  {
    if ks == {} then []
    else
      LeastExists(ks);
      LeastUnique(ks);
      var m :| IsLeast(m, ks);
      [m] + SortedKeys(ks - {m})
  }

  function Pairs(m: map<string, string>, ks: seq<string>): (r: string)
    requires forall k :: k in ks ==> k in m
    ensures forall k :: k in ks ==> Contains(r, k + ":" + m[k])
  {
    if ks == [] then ""
    else
      var entry := ks[0] + ":" + m[ks[0]];
      var rest := Pairs(m, ks[1..]);
      var r := entry + (if |ks| > 1 then " " else "") + rest;
      assert OccursAt(entry, entry, 0);
      ContainsConcat(entry, (if |ks| > 1 then " " else "") + rest, entry);
      assert r == entry + ((if |ks| > 1 then " " else "") + rest);
      forall k | k in ks[1..]
        ensures Contains(r, k + ":" + m[k])
      {
        ContainsConcat((if |ks| > 1 then " " else ""), rest, k + ":" + m[k]);
        ContainsConcat(entry, (if |ks| > 1 then " " else "") + rest, k + ":" + m[k]);
      }
      assert forall k :: k in ks ==> k == ks[0] || k in ks[1..];
      r
  }

  /** `fmt.Sprintf("%v", m)` for a `map[string]string`. */
  function FormatStringMap(m: map<string, string>): (r: string)
    ensures HasPrefix(r, "map[") && HasSuffix(r, "]")
    ensures forall k :: k in m ==> Contains(r, k + ":" + m[k])
  {
    var body := Pairs(m, SortedKeys(m.Keys));
    var r := "map[" + body + "]";
    forall k | k in m
      ensures Contains(r, k + ":" + m[k])
    {
      ContainsConcat("map[", body, k + ":" + m[k]);
      ContainsConcat("map[" + body, "]", k + ":" + m[k]);
    }
    r
  }
}
