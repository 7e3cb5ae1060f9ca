/** Unix path strings as the launcher builds them, and canonical paths as
    sequences of components, so that `Path::starts_with` is a prefix test. */
module Paths {
  import opened TextSplit

  const Separator: char := '/'

  /** `Path::is_absolute` on unix: the path starts at the root. */
  predicate IsAbsolute(p: string) {
    |p| > 0 && p[0] == Separator
  }

  /** The non-empty pieces of a list of pieces, in order. */
  function NonEmpty(pieces: seq<string>): (names: seq<string>)
    ensures forall k :: 0 <= k < |names| ==> names[k] != "" && names[k] in pieces
    ensures |names| <= |pieces|
  {
    if pieces == [] then []
    else if pieces[0] == "" then NonEmpty(pieces[1..])
    else [pieces[0]] + NonEmpty(pieces[1..])
  }

  lemma {:induction false} NonEmptyAppend(a: seq<string>, b: seq<string>)
    ensures NonEmpty(a + b) == NonEmpty(a) + NonEmpty(b)
  {
    if a != [] {
      assert (a + b)[1..] == a[1..] + b;
      NonEmptyAppend(a[1..], b);
    } else {
      assert a + b == b;
    }
  }

  /** The names along a path string: what lies between separators, with the
      empty pieces that repeated or trailing separators leave dropped. */
  function Names(p: string): seq<string> {
    NonEmpty(Split(p, Separator))
  }

  /** `PathBuf::join` on unix: an absolute `name` replaces `dir`; otherwise
      `name` is appended, with a separator only when `dir` is non-empty and
      does not already end in one. */
  function Join(dir: string, name: string): (r: string)
    ensures IsAbsolute(name) ==> r == name
    ensures !IsAbsolute(name) ==> |r| >= |dir| + |name| && r[..|dir|] == dir
    ensures !IsAbsolute(name) && dir != "" ==> IsAbsolute(r) == IsAbsolute(dir)
  {
    if IsAbsolute(name) then name
    else if dir == "" || dir[|dir| - 1] == Separator then dir + name
    else dir + [Separator] + name
  }

  /** Joining a relative name appends its names to those of the directory. */
  lemma {:induction false} JoinAppendsNames(dir: string, name: string)
    requires !IsAbsolute(name)
    ensures Names(Join(dir, name)) == Names(dir) + Names(name)
  {
    if dir == "" {
      assert Split(dir, Separator) == [""];
      assert dir + name == name;
    } else if dir[|dir| - 1] == Separator {
      JoinAfterTrailingSeparator(dir[..|dir| - 1], name);
      assert dir == dir[..|dir| - 1] + [Separator];
    } else {
      SplitConcat(dir, name, Separator);
      NonEmptyAppend(Split(dir, Separator), Split(name, Separator));
    }
  }

  /** A trailing separator adds no name. */
  lemma TrailingSeparatorNames(d: string)
    ensures Names(d + [Separator]) == NonEmpty(Split(d, Separator))
  {
    assert Split(d + [Separator], Separator) == Split(d, Separator) + [""] by {
      assert d + [Separator] == d + [Separator] + "";
      SplitConcat(d, "", Separator);
      assert Split("", Separator) == [""];
    }
    NonEmptyAppend(Split(d, Separator), [""]);
    assert NonEmpty([""]) == [];
  }

  lemma JoinAfterTrailingSeparator(d: string, name: string)
    ensures Names(d + [Separator] + name) == Names(d + [Separator]) + Names(name)
  {
    TrailingSeparatorNames(d);
    SplitConcat(d, name, Separator);
    NonEmptyAppend(Split(d, Separator), Split(name, Separator));
  }

  /** Two names joined by one separator are the names of the result. */
  lemma NamesOfTwo(a: string, b: string)
    requires a != "" && b != "" && Separator !in a && Separator !in b
    ensures Names(a + [Separator] + b) == [a, b]
  {
    SplitTwoPieces(a, b, Separator);
    assert NonEmpty([a, b]) == [a] + NonEmpty([b]);
    assert [a, b][1..] == [b];
    assert NonEmpty([b]) == [b] + NonEmpty([]);
  }

  /** A canonical path: the names below the root, as `fs::canonicalize`
      returns them (absolute, no symbolic links, no `.` or `..`). */
  type CanonPath = seq<string>

  /** Each component is a non-empty name without a separator. */
  predicate WellFormed(p: CanonPath) {
    forall k :: 0 <= k < |p| ==> p[k] != "" && Separator !in p[k]
  }

  /** `Path::starts_with`: a component-wise prefix test. */
  predicate StartsWith(p: CanonPath, base: CanonPath) {
    |base| <= |p| && p[..|base|] == base
  }

  /** The text of a canonical path below the root: "/a/b" for ["a", "b"]. */
  function RenderTail(p: CanonPath): (s: string)
    ensures s == "" || s[0] == Separator
    ensures |s| >= |p|
  {
    if p == [] then "" else [Separator] + p[0] + RenderTail(p[1..])
  }

  /** The text of a canonical path; the root alone is "/". */
  function Render(p: CanonPath): (s: string)
    ensures IsAbsolute(s)
  {
    if p == [] then [Separator] else RenderTail(p)
  }

  /** `t` is a prefix of `s` that ends at a separator or at the end of `s`. */
  predicate PrefixAtBoundary(s: string, t: string) {
    |t| <= |s| && s[..|t|] == t && (|s| == |t| || s[|t|] == Separator)
  }

  /** The length of the leading name of `s`: the index of its first separator,
      or its length when it has none. */
  function LeadingNameLength(s: string): (n: nat)
    ensures n <= |s|
  {
    if s == [] || s[0] == Separator then 0 else 1 + LeadingNameLength(s[1..])
  }

  lemma {:induction false} LeadingNameOf(c: string, x: string)
    requires Separator !in c
    requires x == "" || x[0] == Separator
    ensures LeadingNameLength(c + x) == |c|
  {
    if c != [] {
      assert (c + x)[1..] == c[1..] + x;
      LeadingNameOf(c[1..], x);
    } else {
      assert c + x == x;
    }
  }

  /** Two names followed by separator-led rests can only be equal texts
      when the names are equal. */
  lemma NameSplit(c: string, x: string, d: string, y: string)
    requires Separator !in c && Separator !in d
    requires x == "" || x[0] == Separator
    requires y == "" || y[0] == Separator
    requires c + x == d + y
    ensures c == d && x == y
  {
    LeadingNameOf(c, x);
    LeadingNameOf(d, y);
    assert c == (c + x)[..|c|];
    assert d == (d + y)[..|d|];
    assert x == (c + x)[|c|..];
    assert y == (d + y)[|d|..];
  }

  lemma {:induction false} RenderTailAppend(a: CanonPath, b: CanonPath)
    ensures RenderTail(a + b) == RenderTail(a) + RenderTail(b)
  {
    if a != [] {
      assert (a + b)[0] == a[0];
      assert (a + b)[1..] == a[1..] + b;
      RenderTailAppend(a[1..], b);
    } else {
      assert a + b == b;
    }
  }

  lemma StartsWithGivesBoundaryPrefix(p: CanonPath, base: CanonPath)
    requires StartsWith(p, base)
    ensures PrefixAtBoundary(RenderTail(p), RenderTail(base))
  {
    var rest := p[|base|..];
    assert p == base + rest;
    RenderTailAppend(base, rest);
    var s, t := RenderTail(p), RenderTail(base);
    assert s == t + RenderTail(rest);
    assert s[..|t|] == t;
  }

  /** Dropping a common leading character from both sides of a textual
      equation. */
  lemma DropLeading(c: string, s': string, d: string, t': string, x: string)
    requires [Separator] + c + s' == ([Separator] + d + t') + x
    ensures c + s' == d + (t' + x)
  {
    assert ([Separator] + c + s')[1..] == c + s';
    assert (([Separator] + d + t') + x)[1..] == d + (t' + x);
  }

  /** Dropping the leading separator of both texts: what follows `base`'s
      text in `p`'s is a separator-led rest `x`. */
  lemma BoundaryPrefixUnfold(p: CanonPath, base: CanonPath, x: string)
    requires p != [] && base != []
    requires PrefixAtBoundary(RenderTail(p), RenderTail(base))
    requires x == RenderTail(p)[|RenderTail(base)|..]
    ensures x == "" || x[0] == Separator
    ensures p[0] + RenderTail(p[1..]) == base[0] + (RenderTail(base[1..]) + x)
  {
    var s, t := RenderTail(p), RenderTail(base);
    if |s| != |t| {
      assert x[0] == s[|t|];
    }
    assert s == t + x;
    DropLeading(p[0], RenderTail(p[1..]), base[0], RenderTail(base[1..]), x);
  }

  /** One step of the textual comparison: equal first names, and the rests
      again compare at a boundary. */
  lemma BoundaryPrefixStep(p: CanonPath, base: CanonPath)
    requires p != [] && base != []
    requires Separator !in p[0] && Separator !in base[0]
    requires PrefixAtBoundary(RenderTail(p), RenderTail(base))
    ensures p[0] == base[0]
    ensures PrefixAtBoundary(RenderTail(p[1..]), RenderTail(base[1..]))
  {
    var x := RenderTail(p)[|RenderTail(base)|..];
    BoundaryPrefixUnfold(p, base, x);
    var s', t' := RenderTail(p[1..]), RenderTail(base[1..]);
    assert t' + x == "" || (t' + x)[0] == Separator;
    NameSplit(base[0], t' + x, p[0], s');
    assert s'[..|t'|] == t';
  }

  lemma {:induction false} BoundaryPrefixGivesStartsWith(p: CanonPath, base: CanonPath)
    requires WellFormed(p) && WellFormed(base)
    requires PrefixAtBoundary(RenderTail(p), RenderTail(base))
    ensures StartsWith(p, base)
  {
    if base != [] {
      assert p != [];
      BoundaryPrefixStep(p, base);
      BoundaryPrefixGivesStartsWith(p[1..], base[1..]);
      assert p[..|base|] == [p[0]] + p[1..][..|base| - 1];
      assert base == [base[0]] + base[1..];
    }
  }

  /** A component-wise prefix is exactly a textual prefix that stops at a
      separator boundary: "/usr/bin" is under "/usr" but "/usr/bin-evil"
      is not under "/usr/bin". */
  lemma StartsWithIffBoundaryPrefix(p: CanonPath, base: CanonPath)
    requires WellFormed(p) && WellFormed(base)
    ensures StartsWith(p, base) <==> PrefixAtBoundary(RenderTail(p), RenderTail(base))
  {
    if StartsWith(p, base) {
      StartsWithGivesBoundaryPrefix(p, base);
    }
    if PrefixAtBoundary(RenderTail(p), RenderTail(base)) {
      BoundaryPrefixGivesStartsWith(p, base);
    }
  }
}
