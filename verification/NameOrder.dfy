/** Listing a set of names in order, character by character. */
module NameOrder {
  predicate UpTo(a: string, b: string) {
    a == [] || (b != [] && (a[0] < b[0] || (a[0] == b[0] && UpTo(a[1..], b[1..]))))
  }

  lemma {:induction false} UpToIsTotal(a: string, b: string)
    ensures UpTo(a, b) || UpTo(b, a)
    decreases |a|
  {
    if a != [] && b != [] && a[0] == b[0] {
      UpToIsTotal(a[1..], b[1..]);
    }
  }

  lemma {:induction false} UpToIsAntisymmetric(a: string, b: string)
    requires UpTo(a, b) && UpTo(b, a)
    ensures a == b
    decreases |a|
  {
    if a != [] && b != [] {
      UpToIsAntisymmetric(a[1..], b[1..]);
      assert a == [a[0]] + a[1..] && b == [b[0]] + b[1..];
    }
  }

  lemma {:induction false} UpToIsTransitive(a: string, b: string, c: string)
    requires UpTo(a, b) && UpTo(b, c)
    ensures UpTo(a, c)
    decreases |a|
  {
    if a != [] && b != [] && c != [] && a[0] == b[0] && b[0] == c[0] {
      UpToIsTransitive(a[1..], b[1..], c[1..]);
    }
  }

  ghost predicate InOrder(names: seq<string>) {
    forall i, j :: 0 <= i < j < |names| ==> names[i] != names[j] && UpTo(names[i], names[j])
  }

  /** Every name once, in order. */
  ghost predicate Lists(names: seq<string>, keys: set<string>) {
    InOrder(names) && forall name :: name in names <==> name in keys
  }

  /** A set of names is listed in only one way. */
  lemma {:induction false} ListedOneWay(xs: seq<string>, ys: seq<string>, keys: set<string>)
    requires Lists(xs, keys) && Lists(ys, keys)
    ensures xs == ys
    decreases |xs|
  {
    hide UpTo;
    assert forall i :: 0 <= i < |xs| ==> xs[i] in keys;
    assert forall i :: 0 <= i < |ys| ==> ys[i] in keys;
    if xs != [] && ys != [] {
      assert xs[0] in ys && ys[0] in xs;
      if xs[0] != ys[0] {
        var i :| 0 < i < |ys| && ys[i] == xs[0];
        var j :| 0 < j < |xs| && xs[j] == ys[0];
        UpToIsAntisymmetric(xs[0], ys[0]);
      }
      TailLists(xs, keys);
      TailLists(ys, keys);
      ListedOneWay(xs[1..], ys[1..], keys - {xs[0]});
      assert xs == [xs[0]] + xs[1..] && ys == [ys[0]] + ys[1..];
    }
  }

  lemma TailLists(names: seq<string>, keys: set<string>)
    requires Lists(names, keys) && names != []
    ensures Lists(names[1..], keys - {names[0]})
  {
    hide UpTo;
    var tail := names[1..];
    assert forall i :: 0 <= i < |tail| ==> tail[i] == names[i + 1];
    forall name ensures name in tail <==> name in keys - {names[0]} {
      if name in keys && name != names[0] {
        var i :| 0 <= i < |names| && names[i] == name;
        assert tail[i - 1] == name;
      }
    }
  }

  /** Puts a new name at its place. */
  method Insert(name: string, names: seq<string>) returns (longer: seq<string>)
    requires InOrder(names) && name !in names
    ensures InOrder(longer) && forall n :: n in longer <==> n == name || n in names
  {
    hide UpTo;
    var at := 0;
    while at < |names| && UpTo(names[at], name)
      invariant at <= |names|
      invariant forall i :: 0 <= i < at ==> UpTo(names[i], name)
    {
      at := at + 1;
    }
    longer := names[..at] + [name] + names[at..];
    if at < |names| {
      UpToIsTotal(name, names[at]);
    }
    forall i | at <= i < |names| ensures UpTo(name, names[i]) {
      if at < i {
        UpToIsTransitive(name, names[at], names[i]);
      }
    }
    PlacedInOrder(name, names, at);
    assert names == names[..at] + names[at..];
  }

  lemma PlacedInOrder(name: string, names: seq<string>, at: nat)
    requires InOrder(names) && name !in names && at <= |names|
    requires forall i :: 0 <= i < at ==> UpTo(names[i], name)
    requires forall i :: at <= i < |names| ==> UpTo(name, names[i])
    ensures InOrder(names[..at] + [name] + names[at..])
  {
    hide UpTo;
    var longer := names[..at] + [name] + names[at..];
    forall i, j | 0 <= i < j < |longer| ensures longer[i] != longer[j] && UpTo(longer[i], longer[j]) {
      var x, y := if i < at then i else i - 1, if j < at then j else j - 1;
      assert i != at ==> longer[i] == names[x];
      assert j != at ==> longer[j] == names[y];
    }
  }

  method Sort(keys: set<string>) returns (names: seq<string>)
    ensures Lists(names, keys)
  {
    hide UpTo;
    names := [];
    var rest := keys;
    while rest != {}
      invariant rest <= keys && Lists(names, keys - rest)
      decreases |rest|
    {
      var name :| name in rest;
      names := Insert(name, names);
      rest := rest - {name};
    }
    assert keys - rest == keys;
  }
}
