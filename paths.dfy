/** Unix file-system paths as `java.nio.file.Path` handles them: parsing a
    string into names, `resolve`, `normalize`, `relativize` (with the
    normalising behaviour of JDK 9 and later) and `toString`. */
module Paths {
  import opened Strings

  /** A parsed path: absolute or relative, and its names in order. */
  datatype Path = Path(absolute: bool, names: seq<string>)

  /** The pieces of `s` between '/' characters, empty pieces included. */
  function Pieces(s: string): (r: seq<string>)
    ensures |r| >= 1
    decreases |s|
  {
    if |s| == 0 then [""]
    else
      var rest := Pieces(s[1..]);
      if s[0] == '/' then [""] + rest else [[s[0]] + rest[0]] + rest[1..]
  }

  /** The non-empty pieces, in order: repeated and trailing slashes vanish. */
  function NonEmpty(ps: seq<string>): (r: seq<string>)
    ensures forall n :: n in r <==> n in ps && n != ""
  {
    if |ps| == 0 then []
    else if ps[0] == "" then NonEmpty(ps[1..])
    else [ps[0]] + NonEmpty(ps[1..])
  }

  /** `Path.of(s)`: absolute when it starts with '/', names are the non-empty pieces. */
  function Parse(s: string): Path {
    Path(|s| > 0 && s[0] == '/', NonEmpty(Pieces(s)))
  }

  /** `Path.toString()`: the names joined by '/', after a '/' when absolute. */
  function ToString(p: Path): string {
    (if p.absolute then "/" else "") + Join(p.names, "/")
  }

  predicate IsDot(n: string) {
    n == "." || n == ".."
  }

  /** A name a file can have: non-empty, free of '/', neither "." nor "..". */
  predicate PlainName(n: string) {
    n != "" && !IsDot(n) && '/' !in n
  }

  predicate Plain(names: seq<string>) {
    forall i :: 0 <= i < |names| ==> PlainName(names[i])
  }

  predicate HasDot(p: Path) {
    exists i :: 0 <= i < |p.names| && IsDot(p.names[i])
  }

  /** An absolute, normalised directory, given by its names. */
  type Dir = names: seq<string> | Plain(names)

  function AsPath(d: Dir): Path {
    Path(true, d)
  }

  /** `base.resolve(other)`: an absolute `other` as it is, an empty one gives
      `base`, otherwise `base` followed by the names of `other`. */
  function Resolve(base: Path, other: Path): (r: Path)
    ensures other.absolute ==> r == other
    ensures !other.absolute && |other.names| > 0 ==> r.names == base.names + other.names
  {
    if other.absolute then other
    else if |other.names| == 0 then base
    else Path(base.absolute, base.names + other.names)
  }

  /** One name of `normalize`'s left-to-right pass: "." vanishes, ".." removes
      the name before it, or is dropped at the root of an absolute path, or
      kept when a relative path has nothing to remove. */
  function NormStep(stack: seq<string>, n: string, absolute: bool): seq<string> {
    if n == "." then stack
    else if n == ".." then
      if |stack| > 0 && stack[|stack| - 1] != ".." then stack[..|stack| - 1]
      else if absolute then stack
      else stack + [".."]
    else stack + [n]
  }

  function NormFrom(stack: seq<string>, names: seq<string>, absolute: bool): seq<string>
    decreases |names|
  {
    if |names| == 0 then stack else NormFrom(NormStep(stack, names[0], absolute), names[1..], absolute)
  }

  /** `Path.normalize()`. */
  function Normalize(p: Path): Path {
    Path(p.absolute, NormFrom([], p.names, p.absolute))
  }

  /** The length of the longest common prefix of `a` and `b`. */
  function CommonPrefix(a: seq<string>, b: seq<string>): (i: nat)
    ensures i <= |a| && i <= |b| && a[..i] == b[..i]
    ensures i < |a| && i < |b| ==> a[i] != b[i]
  {
    if |a| == 0 || |b| == 0 || a[0] != b[0] then 0
    else
      var i := 1 + CommonPrefix(a[1..], b[1..]);
      assert a[..i] == [a[0]] + a[1..][..i - 1];
      assert b[..i] == [b[0]] + b[1..][..i - 1];
      i
  }

  function Ups(k: nat): (r: seq<string>)
    ensures |r| == k && forall i :: 0 <= i < k ==> r[i] == ".."
  {
    seq(k, _ => "..")
  }

  /** `base.relativize(child)` for two absolute paths: both are normalised
      when either holds a "." or "..", then one ".." for each name of `base`
      past the common prefix, followed by the rest of `child`. (The check
      that the rest of `base` holds no ".." cannot fail after that.) */
  function Relativize(base: Path, child: Path): (r: Path)
    requires base.absolute && child.absolute
    ensures !r.absolute
  {
    if child == base then Path(false, [])
    else
      var b := if HasDot(base) || HasDot(child) then Normalize(base) else base;
      var c := if HasDot(base) || HasDot(child) then Normalize(child) else child;
      var i := CommonPrefix(b.names, c.names);
      Path(false, Ups(|b.names| - i) + c.names[i..])
  }

  // ---------------------------------------------------------------- lemmas

  /** Joining the pieces of a string with '/' gives the string back. */
  lemma {:induction false} JoinPieces(s: string)
    ensures Join(Pieces(s), "/") == s
    decreases |s|
  {
    if |s| > 0 {
      var rest := Pieces(s[1..]);
      JoinPieces(s[1..]);
      if s[0] == '/' {
        assert s == "/" + s[1..];
      } else {
        var head := [s[0]] + rest[0];
        if |rest| == 1 {
          assert Join(rest, "/") == rest[0];
        } else {
          assert Join(rest, "/") == rest[0] + "/" + Join(rest[1..], "/");
          assert Join([head] + rest[1..], "/") == head + "/" + Join(([head] + rest[1..])[1..], "/");
          assert ([head] + rest[1..])[1..] == rest[1..];
        }
        assert s == [s[0]] + s[1..];
      }
    }
  }

  /** The pieces of a string with no '/' are the string itself. */
  lemma {:induction false} PiecesOfName(n: string)
    requires '/' !in n
    ensures Pieces(n) == [n]
    decreases |n|
  {
    if |n| > 0 {
      PiecesOfName(n[1..]);
      assert n == [n[0]] + n[1..];
    }
  }

  /** Splitting a name, a '/', and more: the name, then the pieces of the rest. */
  lemma {:induction false} PiecesAfterName(n: string, rest: string)
    requires '/' !in n
    ensures Pieces(n + "/" + rest) == [n] + Pieces(rest)
    decreases |n|
  {
    if |n| == 0 {
      assert n + "/" + rest == "/" + rest;
      assert ("/" + rest)[1..] == rest;
    } else {
      var s := n + "/" + rest;
      assert s[1..] == n[1..] + "/" + rest;
      PiecesAfterName(n[1..], rest);
      assert [n[0]] + n[1..] == n;
    }
  }

  /** Splitting the join of plain names gives the names back. */
  lemma {:induction false} PiecesOfJoin(names: seq<string>)
    requires |names| > 0 && Plain(names)
    ensures Pieces(Join(names, "/")) == names
    decreases |names|
  {
    if |names| == 1 {
      PiecesOfName(names[0]);
    } else {
      assert Plain(names[1..]) by {
        forall i | 0 <= i < |names| - 1 ensures PlainName(names[1..][i]) {
          assert names[1..][i] == names[i + 1];
        }
      }
      assert PlainName(names[0]);
      PiecesOfJoin(names[1..]);
      PiecesAfterName(names[0], Join(names[1..], "/"));
      assert names == [names[0]] + names[1..];
    }
  }

  lemma {:induction false} NonEmptyOfPlain(names: seq<string>)
    requires Plain(names)
    ensures NonEmpty(names) == names
    decreases |names|
  {
    if |names| > 0 {
      assert PlainName(names[0]);
      assert Plain(names[1..]) by {
        forall i | 0 <= i < |names| - 1 ensures PlainName(names[1..][i]) {
          assert names[1..][i] == names[i + 1];
        }
      }
      NonEmptyOfPlain(names[1..]);
    }
  }

  /** A relative name made of plain names parses into them and prints back
      as itself. */
  lemma PlainRoundTrip(names: seq<string>)
    requires Plain(names)
    ensures Parse(Join(names, "/")) == Path(false, names)
    ensures ToString(Path(false, names)) == Join(names, "/")
  {
    if |names| > 0 {
      PiecesOfJoin(names);
      NonEmptyOfPlain(names);
      assert PlainName(names[0]);
      JoinHead(names);
    }
  }

  /** A join of non-empty names starts with the first character of the first name. */
  lemma {:induction false} JoinHead(names: seq<string>)
    requires |names| > 0 && names[0] != ""
    ensures |Join(names, "/")| > 0 && Join(names, "/")[0] == names[0][0]
  {
  }

  /** Normalising plain names pushes them unchanged. */
  lemma {:induction false} NormFromPlain(stack: seq<string>, names: seq<string>, absolute: bool)
    requires Plain(names)
    ensures NormFrom(stack, names, absolute) == stack + names
    decreases |names|
  {
    if |names| > 0 {
      assert PlainName(names[0]);
      assert Plain(names[1..]) by {
        forall i | 0 <= i < |names| - 1 ensures PlainName(names[1..][i]) {
          assert names[1..][i] == names[i + 1];
        }
      }
      NormFromPlain(stack + [names[0]], names[1..], absolute);
      assert stack + [names[0]] + names[1..] == stack + names;
    }
  }

  lemma {:induction false} NormFromAppend(stack: seq<string>, a: seq<string>, b: seq<string>, absolute: bool)
    ensures NormFrom(stack, a + b, absolute) == NormFrom(NormFrom(stack, a, absolute), b, absolute)
    decreases |a|
  {
    if |a| == 0 {
      assert a + b == b;
    } else {
      assert (a + b)[0] == a[0] && (a + b)[1..] == a[1..] + b;
      NormFromAppend(NormStep(stack, a[0], absolute), a[1..], b, absolute);
    }
  }

  /** Each ".." removes one plain name from the end. */
  lemma {:induction false} NormFromUps(stack: seq<string>, k: nat, absolute: bool)
    requires k <= |stack| && Plain(stack)
    ensures NormFrom(stack, Ups(k), absolute) == stack[..|stack| - k]
    decreases k
  {
    if k > 0 {
      assert PlainName(stack[|stack| - 1]);
      var st := stack[..|stack| - 1];
      assert Ups(k)[1..] == Ups(k - 1);
      assert Plain(st) by {
        forall i | 0 <= i < |st| ensures PlainName(st[i]) {
          assert st[i] == stack[i];
        }
      }
      NormFromUps(st, k - 1, absolute);
      assert st[..|st| - (k - 1)] == stack[..|stack| - k];
    }
  }

  /** Normalising an absolute path leaves plain names only, when its names
      are not empty strings. */
  lemma {:induction false} NormFromAbsolutePlain(stack: seq<string>, names: seq<string>)
    requires Plain(stack)
    requires forall i :: 0 <= i < |names| ==> names[i] != "" && '/' !in names[i]
    ensures Plain(NormFrom(stack, names, true))
    decreases |names|
  {
    if |names| > 0 {
      var next := NormStep(stack, names[0], true);
      assert Plain(next) by {
        if names[0] != "." && names[0] != ".." {
          assert '/' !in names[0];
          assert PlainName(names[0]);
          forall i | 0 <= i < |next| ensures PlainName(next[i]) {
            if i < |stack| { assert next[i] == stack[i]; }
          }
        } else if names[0] == ".." && |stack| > 0 {
          forall i | 0 <= i < |next| ensures PlainName(next[i]) {
            assert next[i] == stack[i];
          }
        }
      }
      NormFromAbsolutePlain(next, names[1..]);
    }
  }

  /** A path that names a real place: every name non-empty and free of '/'. */
  predicate WellFormed(p: Path) {
    forall i :: 0 <= i < |p.names| ==> p.names[i] != "" && '/' !in p.names[i]
  }

  /** Resolving a name made of plain names against a directory and
      relativizing back gives that name. */
  lemma RelativizeResolvePlain(dir: Dir, names: seq<string>)
    requires |names| > 0 && Plain(names)
    ensures Relativize(AsPath(dir), Resolve(AsPath(dir), Path(false, names))) == Path(false, names)
  {
    var child := Resolve(AsPath(dir), Path(false, names));
    assert child.names == dir + names;
    assert child != AsPath(dir) by {
      assert |child.names| > |dir|;
    }
    assert !HasDot(AsPath(dir)) by {
      forall i | 0 <= i < |dir| ensures !IsDot(dir[i]) {
        assert PlainName(dir[i]);
      }
    }
    assert !HasDot(child) by {
      forall i | 0 <= i < |child.names| ensures !IsDot(child.names[i]) {
        if i < |dir| {
          assert child.names[i] == dir[i] && PlainName(dir[i]);
        } else {
          assert child.names[i] == names[i - |dir|] && PlainName(names[i - |dir|]);
        }
      }
    }
    var i := CommonPrefix(dir, child.names);
    assert i == |dir|;
    assert child.names[i..] == names;
    assert Ups(0) == [];
  }

  /** Going up from a directory to a common prefix and down again. */
  lemma UpAndDown(dir: Dir, cn: seq<string>, i: nat)
    requires Plain(cn) && i <= |dir| && i <= |cn| && dir[..i] == cn[..i]
    ensures NormFrom([], dir + Ups(|dir| - i) + cn[i..], true) == cn
  {
    var rest := cn[i..];
    var ups := Ups(|dir| - i);
    NormFromAppend([], dir + ups, rest, true);
    NormFromAppend([], dir, ups, true);
    NormPlainAbsolute(dir);
    NormFromUps(dir, |dir| - i, true);
    DownFromPrefix(cn, i);
  }

  lemma NormPlainAbsolute(names: seq<string>)
    requires Plain(names)
    ensures NormFrom([], names, true) == names
  {
    NormFromPlain([], names, true);
    assert [] + names == names;
  }

  lemma DownFromPrefix(cn: seq<string>, i: nat)
    requires Plain(cn) && i <= |cn|
    ensures NormFrom(cn[..i], cn[i..], true) == cn
  {
    var rest := cn[i..];
    assert Plain(rest) by {
      forall j | 0 <= j < |rest| ensures PlainName(rest[j]) {
        assert rest[j] == cn[i + j];
      }
    }
    NormFromPlain(cn[..i], rest, true);
    assert cn[..i] + cn[i..] == cn;
  }

  /** The names `relativize` works on for a well-formed absolute path: plain,
      and those of its normal form. */
  lemma RelativizeOperand(dir: Dir, child: Path)
    requires child.absolute && WellFormed(child)
    ensures var cn := if HasDot(AsPath(dir)) || HasDot(child) then Normalize(child).names else child.names;
      Plain(cn) && Normalize(child) == Path(true, cn)
  {
    NormFromAbsolutePlain([], child.names);
    if !(HasDot(AsPath(dir)) || HasDot(child)) {
      assert Plain(child.names) by {
        forall j | 0 <= j < |child.names| ensures PlainName(child.names[j]) {
          assert !IsDot(child.names[j]);
        }
      }
      NormFromPlain([], child.names, true);
      assert [] + child.names == child.names;
    }
  }

  /** `relativize` and `resolve` are inverse up to normalisation: resolving
      the relative path from a directory to a path gives that path back,
      normalised. */
  lemma ResolveRelativize(dir: Dir, child: Path)
    requires child.absolute && WellFormed(child)
    ensures Normalize(Resolve(AsPath(dir), Relativize(AsPath(dir), child))) == Normalize(child)
  {
    NormPlainAbsolute(dir);
    if child != AsPath(dir) {
      RelativizeOperand(dir, child);
      var cn := if HasDot(AsPath(dir)) || HasDot(child) then Normalize(child).names else child.names;
      RelativizeShape(dir, child, cn);
      ResolveUpAndDown(dir, cn);
    }
  }

  /** What `relativize` computes from a directory to another path, given
      the names it compares. */
  lemma RelativizeShape(dir: Dir, child: Path, cn: seq<string>)
    requires child.absolute && child != AsPath(dir) && NormFrom([], dir, true) == dir
    requires cn == if HasDot(AsPath(dir)) || HasDot(child) then Normalize(child).names else child.names
    ensures Relativize(AsPath(dir), child)
      == Path(false, Ups(|dir| - CommonPrefix(dir, cn)) + cn[CommonPrefix(dir, cn)..])
  {
    assert Normalize(AsPath(dir)) == AsPath(dir);
  }

  /** Resolving the way up to the common prefix and down to `cn` against the
      directory, then normalising, gives `cn`. */
  lemma ResolveUpAndDown(dir: Dir, cn: seq<string>)
    requires Plain(cn) && NormFrom([], dir, true) == dir
    ensures var i := CommonPrefix(dir, cn);
      Normalize(Resolve(AsPath(dir), Path(false, Ups(|dir| - i) + cn[i..]))) == Path(true, cn)
  {
    var i := CommonPrefix(dir, cn);
    var rel := Path(false, Ups(|dir| - i) + cn[i..]);
    if |rel.names| == 0 {
      assert cn == cn[..i] == dir;
    } else {
      assert Resolve(AsPath(dir), rel).names == dir + Ups(|dir| - i) + cn[i..];
      UpAndDown(dir, cn, i);
    }
  }
}
