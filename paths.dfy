/** Go's `filepath.Clean` and the two-element `filepath.Join` on a
    slash-separated platform, with the facts the stream and upload paths
    rely on. */
module Paths {
  import opened Strs

  /** A path element that Clean keeps as it is. */
  predicate Plain(e: string) {
    e != "" && e != "." && e != ".."
  }

  predicate AllPlain(elems: seq<string>) {
    forall i :: 0 <= i < |elems| ==> Plain(elems[i])
  }

  /** One element of the lexical walk: "" and "." vanish, ".." removes the
      previous real element (or stays in front of a relative path, or
      vanishes at the root), anything else is kept. */
  function Step(out: seq<string>, e: string, rooted: bool): seq<string> {
    if e == "" || e == "." then out
    else if e == ".." then
      if |out| > 0 && out[|out| - 1] != ".." then out[..|out| - 1]
      else if rooted then out
      else out + [".."]
    else out + [e]
  }

  function CleanElems(elems: seq<string>, rooted: bool): seq<string> {
    if elems == [] then []
    else Step(CleanElems(elems[..|elems| - 1], rooted), elems[|elems| - 1], rooted)
  }

  /** The shape of a cleaned element list: no empty or "." element, and
      ".." only in a leading run, which a rooted path does not have. */
  predicate Canonical(out: seq<string>, rooted: bool) {
    && (forall i :: 0 <= i < |out| ==> out[i] != "" && out[i] != ".")
    && (forall i, j :: 0 <= i < j < |out| && out[j] == ".." ==> out[i] == "..")
    && (rooted ==> forall i :: 0 <= i < |out| ==> out[i] != "..")
  }

  lemma StepCanonical(out: seq<string>, e: string, rooted: bool)
    requires Canonical(out, rooted)
    ensures Canonical(Step(out, e, rooted), rooted)
  {
    if e == ".." && !(|out| > 0 && out[|out| - 1] != "..") && !rooted {
      var r := out + [".."];
      forall i, j | 0 <= i < j < |r| && r[j] == ".."
        ensures r[i] == ".."
      {
        assert r[i] == out[i];
        if j < |out| {
        } else {
          assert out[|out| - 1] == "..";
        }
      }
    }
  }

  lemma {:induction false} CleanElemsCanonical(elems: seq<string>, rooted: bool)
    ensures Canonical(CleanElems(elems, rooted), rooted)
  {
    if elems != [] {
      CleanElemsCanonical(elems[..|elems| - 1], rooted);
      StepCanonical(CleanElems(elems[..|elems| - 1], rooted), elems[|elems| - 1], rooted);
    }
  }

  /** Plain elements after a prefix are all kept, in order. */
  lemma {:induction false} CleanElemsPlainSuffix(a: seq<string>, b: seq<string>, rooted: bool)
    requires AllPlain(b)
    ensures CleanElems(a + b, rooted) == CleanElems(a, rooted) + b
    decreases |b|
  {
    if b == [] {
      assert a + b == a;
    } else {
      var b' := b[..|b| - 1];
      assert (a + b)[..|a + b| - 1] == a + b';
      assert (a + b)[|a + b| - 1] == b[|b| - 1];
      CleanElemsPlainSuffix(a, b', rooted);
      assert b' + [b[|b| - 1]] == b;
    }
  }

  /** filepath.Clean. */
  function Clean(p: string): (c: string)
    ensures c != ""
  {
    if p == [] then "."
    else
      var rooted := p[0] == '/';
      var s := (if rooted then "/" else "") + Join(CleanElems(Split(p, '/'), rooted), '/');
      if s == "" then "." else s
  }

  /** filepath.Join(a, b): the elements from the first non-empty one on,
      joined by '/' and cleaned; "" when both are empty. */
  function JoinPath(a: string, b: string): (r: string)
    ensures r == "" <==> a == "" && b == ""
  {
    if a != "" then Clean(a + "/" + b)
    else if b != "" then Clean(b)
    else ""
  }

  /** The position of the first separator, or the length when there is none. */
  function SepIndex(a: string, sep: char): (k: nat)
    ensures k <= |a| && sep !in a[..k] && (k < |a| ==> a[k] == sep)
  {
    if a == [] then 0
    else if a[0] == sep then 0
    else
      var k' := SepIndex(a[1..], sep);
      assert a[..k' + 1] == [a[0]] + a[1..][..k'];
      k' + 1
  }

  lemma AroundSep(a: string, k: nat, sep: char, b: string)
    requires k < |a| && a[k] == sep
    ensures a == a[..k] + [sep] + a[k + 1..]
    ensures a + [sep] + b == a[..k] + [sep] + (a[k + 1..] + [sep] + b)
  {
  }

  lemma SeqAssoc<T>(x: seq<T>, y: seq<T>, z: seq<T>)
    ensures x + (y + z) == x + y + z
  {
  }

  /** A separator between two strings separates their pieces. */
  lemma {:induction false} SplitAround(a: string, b: string, sep: char)
    ensures Split(a + [sep] + b, sep) == Split(a, sep) + Split(b, sep)
    decreases |a|
  {
    var k := SepIndex(a, sep);
    var p := a[..k];
    if k == |a| {
      SplitNoSep(a, sep);
      SplitConcat(a, b, sep);
    } else {
      var q := a[k + 1..];
      AroundSep(a, k, sep, b);
      SplitConcat(p, q + [sep] + b, sep);
      SplitAround(q, b, sep);
      SplitConcat(p, q, sep);
      SeqAssoc([p], Split(q, sep), Split(b, sep));
    }
  }

  lemma {:induction false} JoinConcat(xs: seq<string>, ys: seq<string>, sep: char)
    requires |xs| >= 1 && |ys| >= 1
    ensures Join(xs + ys, sep) == Join(xs, sep) + [sep] + Join(ys, sep)
    decreases |xs|
  {
    if |xs| == 1 {
      assert (xs + ys)[1..] == ys;
    } else {
      assert (xs + ys)[1..] == xs[1..] + ys;
      JoinConcat(xs[1..], ys, sep);
    }
  }

  /** A relative path of plain elements is its own Clean. */
  lemma CleanPlain(rel: string)
    requires rel != [] && rel[0] != '/' && AllPlain(Split(rel, '/'))
    ensures Clean(rel) == rel
  {
    CleanElemsPlainSuffix([], Split(rel, '/'), false);
    assert [] + Split(rel, '/') == Split(rel, '/');
    JoinSplit(rel, '/');
  }

  lemma ConcatAssoc(a: string, b: string, c: string, d: string)
    ensures a + (b + c + d) == a + b + c + d
  {
  }

  /** Joining a directory and a relative path of plain elements puts that
      path, unchanged, below the cleaned directory. */
  lemma JoinBelow(dir: string, rel: string)
    requires dir != "" && rel != [] && rel[0] != '/' && AllPlain(Split(rel, '/'))
    requires Clean(dir) != "." && Clean(dir) != "/"
    ensures JoinPath(dir, rel) == Clean(dir) + "/" + rel
  {
    var rooted := dir[0] == '/';
    var prefix := if rooted then "/" else "";
    var pa := Split(dir, '/');
    var pb := Split(rel, '/');
    var p := dir + "/" + rel;
    assert p[0] == dir[0];
    assert p == dir + ['/'] + rel;
    SplitAround(dir, rel, '/');
    assert Split(p, '/') == pa + pb;
    CleanElemsPlainSuffix(pa, pb, rooted);
    var ca := CleanElems(pa, rooted);
    assert CleanElems(Split(p, '/'), rooted) == ca + pb;
    var jc := Join(ca, '/');
    assert Clean(dir) == prefix + jc;
    assert ca != [];
    JoinConcat(ca, pb, '/');
    JoinSplit(rel, '/');
    assert Join(ca + pb, '/') == jc + "/" + rel;
    assert Clean(p) == prefix + (jc + "/" + rel);
    ConcatAssoc(prefix, jc, "/", rel);
    assert JoinPath(dir, rel) == Clean(p);
  }

  /** A leading "./" is dropped: the default storage directory
      "./storage" cleans to "storage". */
  lemma CleanDotSlash(name: string)
    requires Plain(name) && '/' !in name
    ensures Clean("./" + name) == name
  {
    var p := "./" + name;
    assert p == "." + ['/'] + name;
    SplitConcat(".", name, '/');
    SplitNoSep(name, '/');
    var elems := [".", name];
    assert Split(p, '/') == elems;
    assert elems[..1] == ["."];
    assert ["."][..0] == [];
    assert CleanElems(["."], false) == [];
    assert CleanElems(elems, false) == [name];
  }

  /** Below a "./"-prefixed directory, a plain relative path lands under
      the directory's bare name. */
  lemma JoinBelowDotSlash(name: string, rel: string)
    requires Plain(name) && '/' !in name
    requires rel != [] && rel[0] != '/' && AllPlain(Split(rel, '/'))
    ensures JoinPath("./" + name, rel) == name + "/" + rel
  {
    CleanDotSlash(name);
    JoinBelow("./" + name, rel);
  }
}
