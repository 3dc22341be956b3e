/** Python 2's `posixpath.join` (two arguments) and `posixpath.dirname`,
    the two path operations the storage backend and the repository
    configuration reader build on. */
module PosixPath {
  import opened PyStr

  /** `os.path.join(a, b)`: an absolute `b` replaces `a`; otherwise one `/`
      is inserted unless `a` is empty or already ends with one. */
  function Join(a: string, b: string): (r: string)
    ensures StartsWith(b, "/") ==> r == b
    ensures !StartsWith(b, "/") ==> EndsWith(r, b) && |r| >= |a| + |b|
  {
    if StartsWith(b, "/") then b
    else if a == "" || EndsWith(a, "/") then a + b
    else a + "/" + b
  }

  predicate AllSlashes(s: string) {
    forall k :: 0 <= k < |s| ==> s[k] == '/'
  }

  /** `os.path.dirname(p)`: everything up to the last `/`, with trailing
      slashes removed unless the head consists of slashes only. */
  function Dirname(p: string): (r: string)
    ensures '/' !in p ==> r == ""
    ensures |r| <= |p| && r == p[..|r|]
  {
    var head := p[..RFind(p, '/') + 1];
    if head != "" && !AllSlashes(head) then RStripChar(head, '/') else head
  }

  /** The directory a joined path remembers: `root` with trailing slashes
      removed (an all-slash root is kept as it is). */
  function NormalDir(root: string): string {
    if AllSlashes(root) then root else RStripChar(root, '/')
  }

  /** `dirname(join(root, name)) == root` (up to trailing slashes) when
      `name` is a plain file name. */
  lemma DirnameOfJoin(root: string, name: string)
    requires '/' !in name
    ensures Dirname(Join(root, name)) == NormalDir(root)
  {
    assert !StartsWith(name, "/") by {
      if |name| > 0 { assert name[..1][0] == name[0] && name[0] in name; }
    }
    if root == "" {
      assert Join(root, name) == name;
    } else if EndsWith(root, "/") {
      var front := root[..|root| - 1];
      assert root == front + "/";
      assert Join(root, name) == front + "/" + name;
      DirnameSlashed(front, name);
    } else {
      assert Join(root, name) == root + "/" + name;
      DirnameSlashed(root, name);
      assert !AllSlashes(root) && !AllSlashes(root + "/") by {
        assert root[|root| - 1] != '/' && (root + "/")[|root| - 1] == root[|root| - 1];
      }
      assert RStripChar(root + "/", '/') == RStripChar(root, '/') by {
        assert (root + "/")[..|root|] == root;
      }
    }
  }

  /** The last `/` of `front + "/" + name` is the one inserted. */
  lemma DirnameSlashed(front: string, name: string)
    requires '/' !in name
    ensures Dirname(front + "/" + name) == NormalDir(front + "/")
  {
    var p := front + "/" + name;
    RFindAfterLast(front, name, '/');
    assert p[..|front| + 1] == front + "/";
  }

  /** A root that does not end in `/` is recovered exactly. */
  lemma DirnameOfJoinExact(root: string, name: string)
    requires '/' !in name
    requires root != "" && root[|root| - 1] != '/'
    ensures Dirname(Join(root, name)) == root
  {
    DirnameOfJoin(root, name);
  }
}
