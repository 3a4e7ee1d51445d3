/**
 * The pieces of Go's standard `strings` and `path` packages that the core relies on:
 * `strings.TrimRight` with the cutset "/", `strings.Split` and `strings.Join` on "/",
 * `path.Base`, `path.Clean` and `path.Join` for two elements. They are lexical operations
 * on slash-separated strings.
 */
module GoPath {

  /** strings.TrimRight(s, cutset) for a one-character cutset: every trailing `c` is dropped. */
  function TrimRight(s: string, c: char): (r: string)
    ensures r <= s
    ensures r == [] || r[|r| - 1] != c
    ensures forall i :: |r| <= i < |s| ==> s[i] == c
  {
    if |s| > 0 && s[|s| - 1] == c then TrimRight(s[..|s| - 1], c) else s
  }

  /**
   * strings.Split(cur + s, "/") where `cur` is the part of the current element already
   * read: the elements between slashes, always at least one, none of them holding a slash.
   */
  function SplitFrom(s: string, cur: string): (elems: seq<string>)
    ensures |elems| >= 1
    ensures '/' !in cur ==> forall e | e in elems :: '/' !in e
    decreases |s|
  {
    if s == [] then [cur]
    else if s[0] == '/' then [cur] + SplitFrom(s[1..], [])
    else SplitFrom(s[1..], cur + [s[0]])
  }

  /** strings.Split(s, "/"). */
  function Split(s: string): seq<string>
  {
    SplitFrom(s, [])
  }

  /** strings.Join(elems, "/"): the result starts with the first element. */
  function JoinElems(elems: seq<string>): (r: string)
    ensures elems != [] ==> elems[0] <= r
  {
    if elems == [] then ""
    else if |elems| == 1 then elems[0]
    else elems[0] + "/" + JoinElems(elems[1..])
  }

  /** The part of `s` after its last '/', or the whole of `s` when it holds no '/'. */
  function LastSegment(s: string): (r: string)
    ensures '/' !in r
  {
    var elems := Split(s);
    assert elems[|elems| - 1] in elems;
    elems[|elems| - 1]
  }

  /**
   * path.Base: the last element of `p`. Trailing slashes are removed first; the empty path
   * gives "." and a path made only of slashes gives "/".
   */
  function Base(p: string): (r: string)
    ensures r != []
    ensures r == "/" || '/' !in r
  {
    if p == [] then "."
    else
      var last := LastSegment(TrimRight(p, '/'));
      if last == [] then "/" else last
  }

  /**
   * One element of path.Clean's lexical processing, applied to the elements kept so far:
   * empty and "." elements vanish, ".." removes the previous kept element when there is
   * one to remove, is dropped at the root of a rooted path and is kept otherwise.
   */
  function Push(kept: seq<string>, elem: string, rooted: bool): (r: seq<string>)
    ensures (forall e | e in kept :: IsElem(e)) && '/' !in elem ==> forall e | e in r :: IsElem(e)
  {
    if elem == "" || elem == "." then kept
    else if elem == ".." then
      if kept != [] && kept[|kept| - 1] != ".." then kept[..|kept| - 1]
      else if rooted then kept
      else kept + [".."]
    else kept + [elem]
  }

  /** Push applied to every element of `elems`, in order. */
  function Reduce(kept: seq<string>, elems: seq<string>, rooted: bool): (r: seq<string>)
    ensures (forall e | e in kept :: IsElem(e)) && (forall e | e in elems :: '/' !in e) ==>
              forall e | e in r :: IsElem(e)
    decreases |elems|
  {
    if elems == [] then kept
    else Reduce(Push(kept, elems[0], rooted), elems[1..], rooted)
  }

  /** An element path.Clean can keep: not empty and free of slashes. */
  predicate IsElem(e: string)
  {
    e != "" && '/' !in e
  }

  predicate IsRooted(p: string)
  {
    p != [] && p[0] == '/'
  }

  /**
   * path.Clean: the shortest path lexically equivalent to `p`; "." when nothing remains.
   * The result is never empty, and it is rooted exactly when `p` is.
   */
  function Clean(p: string): (r: string)
    ensures r != []
    ensures IsRooted(r) <==> IsRooted(p)
  {
    var kept := Reduce([], Split(p), IsRooted(p));
    if IsRooted(p) then "/" + JoinElems(kept)
    else if kept == [] then "."
    else
      assert kept[0] in kept && kept[0][0] in kept[0];
      JoinElems(kept)
  }

  /**
   * path.Join(dir, elem): the non-empty arguments joined by '/' and cleaned. The result is
   * empty only when both arguments are, and otherwise rooted exactly when its first
   * non-empty argument is.
   */
  function Join(dir: string, elem: string): (r: string)
    ensures r == [] <==> dir == [] && elem == []
    ensures r != [] ==> (IsRooted(r) <==> IsRooted(if dir == [] then elem else dir))
  {
    if dir == [] && elem == [] then ""
    else if dir == [] then Clean(elem)
    else Clean(dir + "/" + elem)
  }

  /** An element that path.Clean keeps as it is. */
  predicate PlainElem(e: string)
  {
    e != "" && e != "." && e != ".."
  }

  /** A key with no leading, trailing or doubled slash and no "." or ".." element. */
  predicate IsCleanKey(key: string)
  {
    forall e | e in Split(key) :: PlainElem(e)
  }

  /** What path.Join(dir, key) puts in front of a clean key: the cleaned `dir` and a separator. */
  function JoinRoot(dir: string): string
  {
    if dir == [] then ""
    else
      var kept := Reduce([], Split(dir), IsRooted(dir));
      (if IsRooted(dir) then "/" else "") + (if kept == [] then "" else JoinElems(kept) + "/")
  }

  // ---------------------------------------------------------------- strings.Split and strings.Join

  /** A string without '/' is a single element. */
  lemma {:induction false} SplitFromPlain(s: string, cur: string)
    requires '/' !in s
    ensures SplitFrom(s, cur) == [cur + s]
    decreases |s|
  {
    if s == [] {
      assert cur + s == cur;
    } else {
      assert s[0] in s;
      assert '/' !in s[1..] by {
        assert forall x | x in s[1..] :: x in s;
      }
      SplitFromPlain(s[1..], cur + [s[0]]);
      assert cur + [s[0]] + s[1..] == cur + s;
    }
  }

  lemma {:induction false} SplitFromAround(a: string, b: string, cur: string)
    ensures SplitFrom(a + "/" + b, cur) == SplitFrom(a, cur) + SplitFrom(b, [])
    decreases |a|
  {
    var s := a + "/" + b;
    if a == [] {
      assert s == "/" + b;
      assert s[1..] == b;
    } else {
      assert s[0] == a[0];
      assert s[1..] == a[1..] + "/" + b;
      if a[0] == '/' {
        SplitFromAround(a[1..], b, []);
      } else {
        SplitFromAround(a[1..], b, cur + [a[0]]);
      }
    }
  }

  /** Splitting around a '/' splits each side. */
  lemma SplitAround(a: string, b: string)
    ensures Split(a + "/" + b) == Split(a) + Split(b)
  {
    SplitFromAround(a, b, []);
  }

  lemma {:induction false} JoinSplitFrom(s: string, cur: string)
    ensures JoinElems(SplitFrom(s, cur)) == cur + s
    decreases |s|
  {
    if s == [] {
      assert cur + s == cur;
    } else if s[0] == '/' {
      var rest := SplitFrom(s[1..], []);
      JoinSplitFrom(s[1..], []);
      assert ([cur] + rest)[1..] == rest;
      assert cur + "/" + ([] + s[1..]) == cur + s;
    } else {
      JoinSplitFrom(s[1..], cur + [s[0]]);
      assert cur + [s[0]] + s[1..] == cur + s;
    }
  }

  /** strings.Join undoes strings.Split. */
  lemma JoinSplit(s: string)
    ensures JoinElems(Split(s)) == s
  {
    JoinSplitFrom(s, []);
    assert [] + s == s;
  }

  /** strings.Split undoes strings.Join of elements free of slashes. */
  lemma {:induction false} SplitJoinElems(elems: seq<string>)
    requires elems != [] && forall e | e in elems :: '/' !in e
    ensures Split(JoinElems(elems)) == elems
    decreases |elems|
  {
    assert elems[0] in elems;
    SplitFromPlain(elems[0], []);
    assert [] + elems[0] == elems[0];
    if |elems| > 1 {
      assert forall e | e in elems[1..] :: e in elems;
      SplitJoinElems(elems[1..]);
      SplitAround(elems[0], JoinElems(elems[1..]));
      assert [elems[0]] + elems[1..] == elems;
    }
  }

  lemma {:induction false} JoinElemsAppend(front: seq<string>, back: seq<string>)
    requires back != []
    ensures JoinElems(front + back) == (if front == [] then "" else JoinElems(front) + "/") + JoinElems(back)
    decreases |front|
  {
    var fb := front + back;
    if front == [] {
      assert fb == back;
    } else {
      assert fb[0] == front[0];
      assert fb[1..] == front[1..] + back;
      JoinElemsAppend(front[1..], back);
      if |front| > 1 {
        var f, jr, jb := front[0], JoinElems(front[1..]), JoinElems(back);
        assert f + "/" + (jr + "/" + jb) == (f + "/" + jr) + "/" + jb;
      }
    }
  }

  // ---------------------------------------------------------------- path.Base

  /** The last segment of a path whose final '/' sits right before `name`. */
  lemma LastSegmentAfterSlash(parent: string, name: string)
    requires '/' !in name
    requires parent == [] || parent[|parent| - 1] == '/'
    ensures LastSegment(parent + name) == name
  {
    SplitFromPlain(name, []);
    assert [] + name == name;
    if parent == [] {
      assert parent + name == name;
    } else {
      var p' := parent[..|parent| - 1];
      assert parent + name == p' + "/" + name;
      SplitAround(p', name);
    }
  }

  /**
   * path.Base of a prefix with one trailing slash is the segment before that slash: the
   * base name of "<parent>/<name>/" is "<name>".
   */
  lemma BaseOfDirectoryPrefix(parent: string, name: string)
    requires name != [] && '/' !in name
    requires parent == [] || parent[|parent| - 1] == '/'
    ensures TrimRight(parent + name + "/", '/') == parent + name
    ensures Base(parent + name) == name
  {
    var s := parent + name;
    assert (s + "/")[..|s|] == s;
    assert s[|s| - 1] == name[|name| - 1];
    assert name[|name| - 1] in name;
    assert TrimRight(s, '/') == s;
    LastSegmentAfterSlash(parent, name);
  }

  // ---------------------------------------------------------------- path.Clean and path.Join

  lemma {:induction false} ReduceAppend(kept: seq<string>, a: seq<string>, b: seq<string>, rooted: bool)
    ensures Reduce(kept, a + b, rooted) == Reduce(Reduce(kept, a, rooted), b, rooted)
    decreases |a|
  {
    if a == [] {
      assert a + b == b;
    } else {
      assert (a + b)[0] == a[0];
      assert (a + b)[1..] == a[1..] + b;
      ReduceAppend(Push(kept, a[0], rooted), a[1..], b, rooted);
    }
  }

  lemma {:induction false} ReducePlain(kept: seq<string>, elems: seq<string>, rooted: bool)
    requires forall e | e in elems :: PlainElem(e)
    ensures Reduce(kept, elems, rooted) == kept + elems
    decreases |elems|
  {
    if elems != [] {
      assert elems[0] in elems;
      assert forall e | e in elems[1..] :: e in elems;
      ReducePlain(kept + [elems[0]], elems[1..], rooted);
      assert kept + [elems[0]] + elems[1..] == kept + elems;
    }
  }

  /** A clean key starts with a non-empty element, so it is not empty and not rooted. */
  lemma CleanKeyShape(key: string)
    requires IsCleanKey(key)
    ensures key != [] && !IsRooted(key)
  {
    assert Split(key)[0] in Split(key);
  }

  /** The elements path.Clean keeps for `dir + "/" + key`: those of `dir`, then the clean key's. */
  lemma ReduceJoined(dir: string, key: string)
    requires IsCleanKey(key)
    ensures Reduce([], Split(dir + "/" + key), IsRooted(dir))
         == Reduce([], Split(dir), IsRooted(dir)) + Split(key)
  {
    var rooted := IsRooted(dir);
    SplitAround(dir, key);
    ReduceAppend([], Split(dir), Split(key), rooted);
    ReducePlain(Reduce([], Split(dir), rooted), Split(key), rooted);
  }

  /**
   * path.Join(dir, key) for a clean key is a prefix that depends on `dir` alone followed by
   * the key itself, so the key's hierarchy reappears unchanged below the target directory.
   */
  lemma JoinCleanKey(dir: string, key: string)
    requires IsCleanKey(key)
    ensures Join(dir, key) == JoinRoot(dir) + key
  {
    CleanKeyShape(key);
    assert JoinElems(Split(key)) == key by {
      JoinSplit(key);
    }
    if dir == [] {
      assert Reduce([], Split(key), false) == Split(key) by {
        ReducePlain([], Split(key), false);
        assert [] + Split(key) == Split(key);
      }
    } else {
      JoinCleanKeyUnder(dir, key);
    }
  }

  lemma JoinCleanKeyUnder(dir: string, key: string)
    requires dir != [] && IsCleanKey(key) && JoinElems(Split(key)) == key
    ensures Join(dir, key) == JoinRoot(dir) + key
  {
    var rooted := IsRooted(dir);
    var front := Reduce([], Split(dir), rooted);
    var sep := if front == [] then "" else JoinElems(front) + "/";
    var lead := if rooted then "/" else "";
    calc {
      Join(dir, key);
      Clean(dir + "/" + key);
      { CleanJoined(dir, key); }
      lead + JoinElems(front + Split(key));
      { JoinElemsAppend(front, Split(key)); }
      lead + (sep + key);
      lead + sep + key;
      { JoinRootShape(dir); }
      JoinRoot(dir) + key;
    }
  }

  /** path.Clean of `dir + "/" + key` for a clean key: the root of `dir`, then its kept elements and the key's, joined. */
  lemma CleanJoined(dir: string, key: string)
    requires dir != [] && IsCleanKey(key)
    ensures Clean(dir + "/" + key)
         == (if IsRooted(dir) then "/" else "") + JoinElems(Reduce([], Split(dir), IsRooted(dir)) + Split(key))
  {
    var p := dir + "/" + key;
    var kept := Reduce([], Split(dir), IsRooted(dir)) + Split(key);
    assert IsRooted(p) == IsRooted(dir);
    assert Reduce([], Split(p), IsRooted(p)) == kept by {
      ReduceJoined(dir, key);
    }
    assert kept != [];
  }

  lemma JoinRootShape(dir: string)
    requires dir != []
    ensures var front := Reduce([], Split(dir), IsRooted(dir));
            JoinRoot(dir) == (if IsRooted(dir) then "/" else "") + (if front == [] then "" else JoinElems(front) + "/")
  {
  }

  /** Distinct clean keys are joined to distinct local paths. */
  lemma JoinInjective(dir: string, k1: string, k2: string)
    requires IsCleanKey(k1) && IsCleanKey(k2)
    requires Join(dir, k1) == Join(dir, k2)
    ensures k1 == k2
  {
    JoinCleanKey(dir, k1);
    JoinCleanKey(dir, k2);
    var root := JoinRoot(dir);
    assert (root + k1)[|root|..] == k1;
    assert (root + k2)[|root|..] == k2;
  }

  /** Splitting around a doubled slash leaves one empty element between the two sides. */
  lemma SplitDoubled(a: string, b: string)
    ensures Split(a + "//" + b) == Split(a) + [""] + Split(b)
  {
    assert a + "//" + b == a + "/" + ("/" + b);
    SplitAround(a, "/" + b);
    assert ("/" + b)[1..] == b;
  }

  /** An empty element among the elements has no effect on what path.Clean keeps. */
  lemma ReduceSkipsEmpty(kept: seq<string>, x: seq<string>, y: seq<string>, rooted: bool)
    ensures Reduce(kept, x + [""] + y, rooted) == Reduce(kept, x + y, rooted)
  {
    assert x + [""] + y == x + ([""] + y);
    ReduceAppend(kept, x, [""] + y, rooted);
    assert ([""] + y)[1..] == y;
    ReduceAppend(kept, x, y, rooted);
  }

  /** The elements path.Clean keeps for `dir/a//b` and for `dir/a/b` are the same. */
  lemma ReduceDoubledSlash(dir: string, a: string, b: string)
    ensures Reduce([], Split(dir + "/" + (a + "//" + b)), IsRooted(dir))
         == Reduce([], Split(dir + "/" + (a + "/" + b)), IsRooted(dir))
  {
    var rooted := IsRooted(dir);
    var d, sa, sb := Split(dir), Split(a), Split(b);
    calc {
      Reduce([], Split(dir + "/" + (a + "//" + b)), rooted);
      { SplitAroundDoubled(dir, a, b); }
      Reduce([], (d + sa) + [""] + sb, rooted);
      { ReduceSkipsEmpty([], d + sa, sb, rooted); }
      Reduce([], (d + sa) + sb, rooted);
      { SplitAroundTwice(dir, a, b); }
      Reduce([], Split(dir + "/" + (a + "/" + b)), rooted);
    }
  }

  lemma SplitAroundDoubled(dir: string, a: string, b: string)
    ensures Split(dir + "/" + (a + "//" + b)) == (Split(dir) + Split(a)) + [""] + Split(b)
  {
    SplitAround(dir, a + "//" + b);
    SplitDoubled(a, b);
  }

  lemma SplitAroundTwice(dir: string, a: string, b: string)
    ensures Split(dir + "/" + (a + "/" + b)) == (Split(dir) + Split(a)) + Split(b)
  {
    SplitAround(dir, a + "/" + b);
    SplitAround(a, b);
  }

  /**
   * Keys that are not clean can collide: a doubled slash is cleaned away, so the keys
   * `a//b` and `a/b` are joined to the same local path.
   */
  lemma DoubledSlashCollides(dir: string, a: string, b: string)
    requires dir != []
    ensures Join(dir, a + "//" + b) == Join(dir, a + "/" + b)
    ensures a + "//" + b != a + "/" + b
  {
    var p1 := dir + "/" + (a + "//" + b);
    var p2 := dir + "/" + (a + "/" + b);
    assert IsRooted(p1) == IsRooted(dir) == IsRooted(p2);
    ReduceDoubledSlash(dir, a, b);
    assert |a + "//" + b| != |a + "/" + b|;
  }

  /**
   * Keys with ".." elements can leave the directory they are joined to: with `d`, `m`, `s`
   * and `x` single plain elements, the key `m/s/../../../x` starts with `m/s/` but
   * path.Join(d, key) is `x`, which is not below `d`.
   */
  lemma DotDotLeavesDir(d: string, m: string, s: string, x: string)
    requires PlainElem(d) && PlainElem(m) && PlainElem(s) && PlainElem(x)
    requires '/' !in d && '/' !in m && '/' !in s && '/' !in x
    ensures var key := JoinElems([m, s, "..", "..", "..", x]);
            && m + "/" + s + "/" <= key
            && Join(d, key) == x
            && !(JoinRoot(d) <= Join(d, key))
  {
    var key := JoinElems([m, s, "..", "..", "..", x]);
    DotDotKeyStart(m, s, x);
    JoinDotDotKey(d, m, s, x);
    JoinRootOfElem(d);
    SlashEndedNotPrefix(d, x);
  }

  lemma SlashEndedNotPrefix(d: string, x: string)
    requires '/' !in x
    ensures !(d + "/" <= x)
  {
    if |d| < |x| {
      assert x[|d|] in x;
      assert (d + "/")[|d|] == '/';
    }
  }

  lemma DotDotKeyStart(m: string, s: string, x: string)
    ensures m + "/" + s + "/" <= JoinElems([m, s, "..", "..", "..", x])
  {
    var ks := [m, s, "..", "..", "..", x];
    assert ks[1..][1..] == ks[2..];
    assert JoinElems(ks) == m + "/" + (s + "/" + JoinElems(ks[2..]));
    assert m + "/" + (s + "/" + JoinElems(ks[2..])) == (m + "/" + s + "/") + JoinElems(ks[2..]);
  }

  lemma JoinDotDotKey(d: string, m: string, s: string, x: string)
    requires PlainElem(d) && PlainElem(m) && PlainElem(s) && PlainElem(x)
    requires '/' !in d && '/' !in m && '/' !in s && '/' !in x
    ensures Join(d, JoinElems([m, s, "..", "..", "..", x])) == x
  {
    var ks := [m, s, "..", "..", "..", x];
    var p := d + "/" + JoinElems(ks);
    assert Split(p) == [d] + ks by {
      SplitJoinElems(ks);
      SplitFromPlain(d, []);
      assert [] + d == d;
      SplitAround(d, JoinElems(ks));
    }
    assert !IsRooted(p) by {
      assert p[0] == d[0] && d[0] in d;
    }
    assert [d] + ks == [d, m, s, "..", "..", "..", x];
    ReduceSteps(d, m, s, x);
    assert Clean(p) == JoinElems([x]);
  }

  /** A directory made of one plain element is joined to a clean key as `d/`. */
  lemma JoinRootOfElem(d: string)
    requires PlainElem(d) && '/' !in d
    ensures JoinRoot(d) == d + "/"
  {
    SplitFromPlain(d, []);
    assert [] + d == d;
    assert !IsRooted(d) by {
      assert d[0] in d;
    }
    ReducePlain([], [d], false);
    assert [] + [d] == [d];
  }

  /** A ".." element removes the last kept element when that is a plain one. */
  lemma PopOne(kept: seq<string>, rest: seq<string>, rooted: bool)
    requires kept != [] && kept[|kept| - 1] != ".."
    ensures Reduce(kept, [".."] + rest, rooted) == Reduce(kept[..|kept| - 1], rest, rooted)
  {
    assert ([".."] + rest)[0] == ".." && ([".."] + rest)[1..] == rest;
  }

  lemma ReduceSteps(d: string, m: string, s: string, x: string)
    requires PlainElem(d) && PlainElem(m) && PlainElem(s) && PlainElem(x)
    ensures Reduce([], [d, m, s, "..", "..", "..", x], false) == [x]
  {
    var front := [d, m, s];
    var back := [".."] + ([".."] + ([".."] + [x]));
    assert [d, m, s, "..", "..", "..", x] == front + back;
    calc {
      Reduce([], front + back, false);
      { ReduceAppend([], front, back, false);
        ReducePlain([], front, false);
        assert [] + front == front; }
      Reduce(front, back, false);
      { PopOne(front, [".."] + ([".."] + [x]), false);
        assert front[..2] == [d, m]; }
      Reduce([d, m], [".."] + ([".."] + [x]), false);
      { PopOne([d, m], [".."] + [x], false);
        assert [d, m][..1] == [d]; }
      Reduce([d], [".."] + [x], false);
      { PopOne([d], [x], false);
        assert [d][..0] == []; }
      Reduce([], [x], false);
      { ReducePlain([], [x], false);
        assert [] + [x] == [x]; }
      [x];
    }
  }
}
