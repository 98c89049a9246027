/** Filesystem paths as sequences of normal components, with the two
    operations of `std::path::Path` that the search uses: `parent` and `join`
    of a relative name. */
module Paths {
  import opened Wrappers

  /** A path: `absolute` records a leading root, `parts` the components in
      order. The path with no components (the root `/`, or the empty relative
      path) is the only one without a parent. */
  datatype Path = Path(absolute: bool, parts: seq<string>)

  /** `Path::parent`: the path without its last component; `None` when there
      is no component left to drop. */
  function Parent(p: Path): (r: Option<Path>)
    ensures r.None? <==> |p.parts| == 0
    ensures r.Some? ==> r.value.absolute == p.absolute
    ensures r.Some? ==> r.value.parts + [p.parts[|p.parts| - 1]] == p.parts
  {
    if |p.parts| == 0 then None else Some(Path(p.absolute, p.parts[..|p.parts| - 1]))
  }

  /** `Path::join` with a relative `name`: the components of `name` follow
      those of `dir`. */
  function Join(dir: Path, name: seq<string>): (r: Path)
    ensures r.absolute == dir.absolute
    ensures |r.parts| == |dir.parts| + |name|
    ensures r.parts[..|dir.parts|] == dir.parts && r.parts[|dir.parts|..] == name
  {
    Path(dir.absolute, dir.parts + name)
  }

  /** The ancestor `k` levels above `p` (`k == 0` is `p` itself). */
  function Ancestor(p: Path, k: nat): (r: Path)
    requires k <= |p.parts|
    ensures r.absolute == p.absolute && |r.parts| == |p.parts| - k
  {
    Path(p.absolute, p.parts[..|p.parts| - k])
  }

  /** The last ancestor of `p`: the one `parent` returns `None` for. */
  function Root(p: Path): (r: Path)
    ensures Parent(r).None?
  {
    Ancestor(p, |p.parts|)
  }

  /** Ancestors are exactly what repeated `parent` calls visit: one more
      level up is the parent of the ancestor below it, and the walk ends at
      `Root`. */
  lemma AncestorIsIteratedParent(p: Path, k: nat)
    requires k <= |p.parts|
    ensures k == 0 ==> Ancestor(p, k) == p
    ensures k < |p.parts| ==> Parent(Ancestor(p, k)) == Some(Ancestor(p, k + 1))
    ensures k == |p.parts| ==> Parent(Ancestor(p, k)).None?
  {
    if k < |p.parts| {
      var a := Ancestor(p, k);
      assert a.parts[..|a.parts| - 1] == p.parts[..|p.parts| - (k + 1)];
    }
  }

  /** Ancestors of the parent are the ancestors of the child shifted by one. */
  lemma ParentAncestorShift(p: Path, q: Path, k: nat)
    requires Parent(p) == Some(q)
    requires k <= |q.parts|
    ensures Ancestor(q, k) == Ancestor(p, k + 1)
  {
    assert q.parts == p.parts[..|p.parts| - 1];
    assert q.parts[..|q.parts| - k] == p.parts[..|p.parts| - (k + 1)];
  }

  /** The text of a path (`to_string_lossy` on a valid path): components
      separated by `/`, after a leading `/` when the path is absolute. */
  function Render(p: Path): (s: string)
    ensures p.absolute ==> |s| > 0 && s[0] == '/'
    ensures |p.parts| == 0 ==> s == (if p.absolute then "/" else "")
  {
    (if p.absolute then "/" else "") + Separated(p.parts)
  }

  function Separated(parts: seq<string>): string
  {
    if |parts| == 0 then ""
    else if |parts| == 1 then parts[0]
    else parts[0] + "/" + Separated(parts[1..])
  }

  lemma {:induction false} SeparatedSnoc(parts: seq<string>, name: string)
    requires |parts| > 0
    ensures Separated(parts + [name]) == Separated(parts) + "/" + name
    decreases |parts|
  {
    if |parts| > 1 {
      assert (parts + [name])[1..] == parts[1..] + [name];
      SeparatedSnoc(parts[1..], name);
    }
  }

  /** Joining one component onto a directory renders as the directory's
      text, a `/`, and the component; onto the bare root, as `/` and the
      component. */
  lemma RenderJoin(d: Path, name: string)
    ensures |d.parts| > 0 ==> Render(Join(d, [name])) == Render(d) + "/" + name
    ensures |d.parts| == 0 ==> Render(Join(d, [name])) == (if d.absolute then "/" else "") + name
  {
    if |d.parts| > 0 {
      SeparatedSnoc(d.parts, name);
    } else {
      assert Join(d, [name]).parts == [name];
    }
  }
}
