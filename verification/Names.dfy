/** Amounts attached to names, added up or collected over a list of names: the order of the list
    does not matter. */
module Names {

  predicate Distinct(names: seq<string>) {
    forall i, j :: 0 <= i < j < |names| ==> names[i] != names[j]
  }

  /** The two lists hold the same names. */
  ghost predicate SameNames(xs: seq<string>, ys: seq<string>) {
    forall n :: n in xs <==> n in ys
  }

  predicate Has(f: map<string, int>, names: seq<string>) {
    forall i :: 0 <= i < |names| ==> names[i] in f
  }

  function SumOver(f: map<string, int>, names: seq<string>): int
    requires Has(f, names)
  {
    if names == [] then 0 else f[names[0]] + SumOver(f, names[1..])
  }

  ghost function Values(f: map<string, int>, names: seq<string>): multiset<int>
    requires Has(f, names)
  {
    if names == [] then multiset{} else multiset{f[names[0]]} + Values(f, names[1..])
  }

  lemma {:induction false} SumConcat(f: map<string, int>, xs: seq<string>, ys: seq<string>)
    requires Has(f, xs) && Has(f, ys)
    ensures SumOver(f, xs + ys) == SumOver(f, xs) + SumOver(f, ys)
  {
    if xs == [] {
      assert xs + ys == ys;
    } else {
      SumConcat(f, xs[1..], ys);
      assert (xs + ys)[1..] == xs[1..] + ys;
    }
  }

  lemma {:induction false} ValuesConcat(f: map<string, int>, xs: seq<string>, ys: seq<string>)
    requires Has(f, xs) && Has(f, ys)
    ensures Values(f, xs + ys) == Values(f, xs) + Values(f, ys)
  {
    if xs == [] {
      assert xs + ys == ys;
    } else {
      ValuesConcat(f, xs[1..], ys);
      assert (xs + ys)[1..] == xs[1..] + ys && (xs + ys)[0] == xs[0];
      AddFirst(f[xs[0]], Values(f, xs[1..]), Values(f, ys));
    }
  }

  lemma AddFirst(v: int, a: multiset<int>, b: multiset<int>)
    ensures multiset{v} + (a + b) == (multiset{v} + a) + b
  {
  }

  function Without(names: seq<string>, k: nat): seq<string>
    requires k < |names|
  {
    names[..k] + names[k + 1..]
  }

  lemma WithoutNames(names: seq<string>, k: nat)
    requires Distinct(names) && k < |names|
    ensures Distinct(Without(names, k))
    ensures forall n :: n in Without(names, k) <==> n in names && n != names[k]
  {
    var rest := Without(names, k);
    forall n | n in names && n != names[k] ensures n in rest {
      var i :| 0 <= i < |names| && names[i] == n;
      assert n == rest[if i < k then i else i - 1];
    }
  }

  lemma SumWithout(f: map<string, int>, names: seq<string>, k: nat)
    requires Has(f, names) && k < |names|
    ensures Has(f, Without(names, k))
    ensures SumOver(f, names) == f[names[k]] + SumOver(f, Without(names, k))
  {
    assert names == names[..k] + names[k..];
    SumConcat(f, names[..k], names[k..]);
    SumConcat(f, names[..k], names[k + 1..]);
  }

  lemma ValuesWithout(f: map<string, int>, names: seq<string>, k: nat)
    requires Has(f, names) && k < |names|
    ensures Has(f, Without(names, k))
    ensures Values(f, names) == multiset{f[names[k]]} + Values(f, Without(names, k))
  {
    var before, behind := names[..k], names[k + 1..];
    assert names == before + names[k..] && names[k..][0] == names[k] && names[k..][1..] == behind;
    ValuesConcat(f, before, names[k..]);
    ValuesConcat(f, before, behind);
    SwapFirst(f[names[k]], Values(f, before), Values(f, behind));
  }

  lemma SwapFirst(v: int, a: multiset<int>, b: multiset<int>)
    ensures a + (multiset{v} + b) == multiset{v} + (a + b)
  {
  }

  lemma HasMember(names: seq<string>)
    ensures names == [] || exists n :: n in names
  {
    if names != [] {
      assert names[0] in names;
    }
  }

  lemma {:induction false} Reorder(f: map<string, int>, xs: seq<string>, ys: seq<string>)
    requires Has(f, xs) && Has(f, ys) && Distinct(xs) && Distinct(ys) && SameNames(xs, ys)
    ensures SumOver(f, xs) == SumOver(f, ys) && Values(f, xs) == Values(f, ys)
    decreases |xs|
  {
    if xs == [] {
      HasMember(ys);
    } else {
      assert xs[0] in ys;
      var k :| 0 <= k < |ys| && ys[k] == xs[0];
      var xs', ys' := xs[1..], Without(ys, k);
      assert xs' == Without(xs, 0);
      WithoutNames(xs, 0);
      WithoutNames(ys, k);
      assert SameNames(xs', ys');
      SumWithout(f, ys, k);
      ValuesWithout(f, ys, k);
      Reorder(f, xs', ys');
    }
  }

  lemma {:induction false} ValuesSize(f: map<string, int>, names: seq<string>)
    requires Has(f, names)
    ensures |Values(f, names)| == |names|
  {
    if names == [] {
    } else {
      ValuesSize(f, names[1..]);
    }
  }

  lemma {:induction false} ValuesHold(f: map<string, int>, names: seq<string>, v: int)
    requires Has(f, names)
    ensures v in Values(f, names) <==> exists i :: 0 <= i < |names| && f[names[i]] == v
  {
    if names == [] {
    } else {
      var rest := names[1..];
      ValuesHold(f, rest, v);
      if v in Values(f, rest) {
        var i :| 0 <= i < |rest| && f[rest[i]] == v;
        assert names[i + 1] == rest[i];
      }
      if exists i :: 0 <= i < |names| && f[names[i]] == v {
        var i :| 0 <= i < |names| && f[names[i]] == v;
        assert i > 0 ==> rest[i - 1] == names[i];
      }
    }
  }

  lemma {:induction false} ValuesFrame(f: map<string, int>, g: map<string, int>, names: seq<string>)
    requires Has(f, names) && Has(g, names) && forall i :: 0 <= i < |names| ==> f[names[i]] == g[names[i]]
    ensures Values(f, names) == Values(g, names)
  {
    if names == [] {
    } else {
      ValuesFrame(f, g, names[1..]);
    }
  }

  /** One amount changed: its old value goes, its new one comes. */
  lemma ValuesUpdate(f: map<string, int>, names: seq<string>, k: nat, v: int)
    requires Has(f, names) && Distinct(names) && k < |names|
    ensures Has(f[names[k] := v], names)
    ensures Values(f[names[k] := v], names) + multiset{f[names[k]]} == Values(f, names) + multiset{v}
  {
    var g, rest := f[names[k] := v], Without(names, k);
    ValuesWithout(f, names, k);
    ValuesWithout(g, names, k);
    WithoutNames(names, k);
    ValuesFrame(f, g, rest);
  }
}
