/** Unix file-system paths as the interpreter handles them through Rust's
    `PathBuf`: a path is its text; `is_absolute`, `join` and the equality of
    two paths (which compares components, not text) are written out here. */
module Paths {
  import opened Strings

  type Path = string

  const Separator: char := '/'

  /** One element of `Path::components` on Unix. */
  datatype Component = RootDir | CurDir | ParentDir | Normal(name: string)

  /** `Path::is_absolute` on Unix: the path starts at the root. */
  predicate IsAbsolute(p: Path) {
    |p| > 0 && p[0] == Separator
  }

  /** `Path::join` (`PathBuf::push`) on Unix: an absolute `rel` replaces `base`;
      otherwise a separator is inserted unless `base` is empty or already ends
      with one. */
  function JoinPath(base: Path, rel: Path): (r: Path)
  {
    if IsAbsolute(rel) then rel
    else if base != [] && base[|base| - 1] != Separator then base + [Separator] + rel
    else base + rel
  }

  /** Joining a relative path keeps `base` as a prefix and `rel` as a suffix. */
  lemma JoinPathExtends(base: Path, rel: Path)
    requires !IsAbsolute(rel)
    ensures var r := JoinPath(base, rel);
      |r| >= |base| + |rel| && r[..|base|] == base && r[|r| - |rel|..] == rel
      && (IsAbsolute(base) ==> IsAbsolute(r))
  {
  }

  /** The component one piece between separators contributes: empty pieces and
      `.` vanish. */
  function Segment(piece: string): (cs: seq<Component>)
    ensures |cs| <= 1
  {
    if piece == [] || piece == "." then []
    else if piece == ".." then [ParentDir]
    else [Normal(piece)]
  }

  function Normalize(pieces: seq<string>): (cs: seq<Component>)
    ensures forall i :: 0 <= i < |cs| ==> cs[i] == ParentDir || (cs[i].Normal? && cs[i].name !in {"", ".", ".."})
  {
    if pieces == [] then [] else Segment(pieces[0]) + Normalize(pieces[1..])
  }

  /** `Path::components` on Unix: a root, or a leading `.` of a relative path,
      then the remaining pieces with empty ones and `.` left out. */
  function Components(p: Path): (cs: seq<Component>)
  {
    Lead(IsAbsolute(p), Split(p, Separator))
  }

  /** The components of a path split at its separators into `pieces`. */
  function Lead(absolute: bool, pieces: seq<string>): seq<Component>
    requires pieces != []
  {
    if absolute then [RootDir] + Normalize(pieces[1..])
    else if pieces[0] == "." then [CurDir] + Normalize(pieces[1..])
    else Normalize(pieces)
  }

  lemma LeadAppend(absolute: bool, pieces: seq<string>, tail: seq<string>)
    requires pieces != []
    ensures Lead(absolute, pieces + tail) == Lead(absolute, pieces) + Normalize(tail)
  {
    var all := pieces + tail;
    assert all[0] == pieces[0] && all[1..] == pieces[1..] + tail;
    if absolute || pieces[0] == "." {
      NormalizeAppend(pieces[1..], tail);
    } else {
      NormalizeAppend(pieces, tail);
    }
  }

  /** `PathBuf == PathBuf`: two paths are equal when their components are. */
  predicate SamePath(a: Path, b: Path) {
    Components(a) == Components(b)
  }

  lemma {:induction false} NormalizeAppend(a: seq<string>, b: seq<string>)
    ensures Normalize(a + b) == Normalize(a) + Normalize(b)
  {
    if a == [] {
      assert a + b == b;
    } else {
      assert (a + b)[0] == a[0] && (a + b)[1..] == a[1..] + b;
      NormalizeAppend(a[1..], b);
    }
  }

  /** A trailing separator does not make a different path. */
  lemma TrailingSeparatorIgnored(p: Path)
    requires p != []
    ensures SamePath(p + [Separator], p)
  {
    var pieces := Split(p, Separator);
    SplitAppend(p, Separator, []);
    assert p + [Separator] + [] == p + [Separator];
    assert Split(p + [Separator], Separator) == pieces + [[]];
    assert (pieces + [[]])[1..] == pieces[1..] + [[]];
    NormalizeAppend(pieces[1..], [[]]);
    NormalizeAppend(pieces, [[]]);
    assert Normalize([[]]) == [];
  }

  /** Joining a non-empty directory with a relative path appends the relative
      path's components (a leading `.` of `rel` vanishes). */
  lemma JoinPathComponents(base: Path, rel: Path)
    requires base != [] && !IsAbsolute(rel)
    ensures Components(JoinPath(base, rel)) == Components(base) + Normalize(Split(rel, Separator))
  {
    if base[|base| - 1] != Separator {
      SplitAppend(base, Separator, rel);
      SameLead(base, base + [Separator] + rel, Split(base, Separator), Split(rel, Separator));
    } else {
      var stem := base[..|base| - 1];
      assert base == stem + [Separator];
      assert JoinPath(base, rel) == stem + [Separator] + rel;
      if stem == [] {
        JoinToRoot(rel);
      } else {
        JoinAfterSeparator(stem, rel);
      }
    }
  }

  lemma JoinToRoot(rel: Path)
    ensures Components([Separator] + rel) == Components([Separator]) + Normalize(Split(rel, Separator))
  {
    SplitAppend([], Separator, rel);
    SplitAppend([], Separator, []);
    assert [] + [Separator] + rel == [Separator] + rel;
    assert [] + [Separator] + [] == [Separator];
    assert Split([Separator] + rel, Separator)[1..] == Split(rel, Separator);
    assert Split([Separator], Separator) == [[], []];
    assert Normalize([[]]) == [];
  }

  lemma JoinAfterSeparator(stem: Path, rel: Path)
    requires stem != []
    ensures Components(stem + [Separator] + rel) == Components(stem + [Separator]) + Normalize(Split(rel, Separator))
  {
    var ps := Split(stem, Separator);
    var withSep := stem + [Separator];
    SplitAppend(stem, Separator, rel);
    SplitAppend(stem, Separator, []);
    assert stem + [Separator] + [] == withSep;
    SameLead(stem, stem + [Separator] + rel, ps, Split(rel, Separator));
    SameLead(stem, withSep, ps, [[]]);
    EmptyPieceVanishes();
    assert Components(withSep) == Components(stem);
  }

  lemma EmptyPieceVanishes()
    ensures Normalize([[]]) == []
  {
    var pieces: seq<string> := [[]];
    assert pieces[1..] == [];
  }

  /** If `r` splits into the pieces of `a` followed by `tail`, and both start
      with the same character, then the components of `r` are those of `a`
      followed by the normalized `tail`. */
  lemma SameLead(a: Path, r: Path, pa: seq<string>, tail: seq<string>)
    requires a != [] && pa == Split(a, Separator)
    requires Split(r, Separator) == pa + tail && r != [] && r[0] == a[0]
    ensures Components(r) == Components(a) + Normalize(tail)
  {
    assert IsAbsolute(r) == IsAbsolute(a);
    LeadAppend(IsAbsolute(a), pa, tail);
  }
}
