/**
 * The archiver behind file sync: the project tree, or the files a watch saw change, walked into a
 * tar archive, in-memory payloads appended after it, and the archive extracted into the component's
 * container. The local file system is a tree of nodes; the platform's path separator is `sep`.
 */
module Sync {
  import opened Results
  import opened Text
  import opened Tar
  import Cluster

  // ---- the local file system -------------------------------------------------------------------

  /**
   * A node as `os.Lstat` sees it, with its permission bits; a directory's children come in the order
   * `ioutil.ReadDir` lists them.
   */
  datatype Node =
    | Dir(perm: nat, children: seq<Child>)
    | File(perm: nat, bytes: seq<bv8>)
    | Symlink(perm: nat, target: string)

  datatype Child = Child(name: string, node: Node)

  /** A directory never lists two children of the same name, at any depth. */
  predicate UniqueNames(node: Node)
    decreases node
  {
    match node
    case Dir(_, children) =>
      && (forall i, j :: 0 <= i < j < |children| ==> children[i].name != children[j].name)
      && (forall i :: 0 <= i < |children| ==> UniqueNames(children[i].node))
    case _ => true
  }

  /** The first child of that name. */
  function ChildNamed(children: seq<Child>, name: string): (r: Option<Node>)
    ensures r.Some? <==> exists i :: 0 <= i < |children| && children[i].name == name
  {
    if children == [] then None
    else if children[0].name == name then Some(children[0].node)
    else ChildNamed(children[1..], name)
  }

  /** The node at the path `rel` below `node`, if there is one. */
  function Lookup(node: Node, rel: seq<string>): Option<Node>
    decreases |rel|
  {
    if rel == [] then Some(node)
    else if !node.Dir? then None
    else
      match ChildNamed(node.children, rel[0])
      case None => None
      case Some(child) => Lookup(child, rel[1..])
  }

  /** Names joined by the separator. */
  function JoinAll(parts: seq<string>, sep: char): string
    decreases |parts|
  {
    if parts == [] then ""
    else if |parts| == 1 then parts[0]
    else JoinAll(parts[..|parts| - 1], sep) + [sep] + parts[|parts| - 1]
  }

  /** The local path of a list of names, from the file-system root. */
  function LocalName(path: seq<string>, sep: char): string
  {
    [sep] + JoinAll(path, sep)
  }

  /**
   * `filepath.Join` of a clean directory and a clean name, cleaned as Join cleans its result: empty
   * parts are dropped, and a name below "." is the name itself.
   */
  function JoinName(dir: string, name: string, sep: char): string
  {
    if dir == "" then name else if name == "" then dir else if dir == "." then name else dir + [sep] + name
  }

  /**
   * The local path `filepath.Join` reaches from `path` through the clean relative path `rel`: a ".."
   * step leaves a directory (the root is its own parent), any other step enters the named entry.
   */
  function Resolve(path: seq<string>, rel: seq<string>): seq<string>
    decreases |rel|
  {
    if rel == [] then path
    else if rel[0] == ".." then Resolve(if path == [] then [] else path[..|path| - 1], rel[1..])
    else Resolve(path + [rel[0]], rel[1..])
  }

  /** `filepath.Rel` as the watch mode uses it: "." for the source directory itself. */
  function RelName(rel: seq<string>, sep: char): string
  {
    if rel == [] then "." else JoinAll(rel, sep)
  }

  // ---- what recursiveTar writes ----------------------------------------------------------------

  /**
   * The header `tar.FileInfoHeader` makes for a node, renamed to `name`: the node's permission bits as
   * the mode (no file-type bits), the type flag of its kind, a file's length as the size, and a
   * symlink's target as the link name.
   */
  function HeaderOf(node: Node, name: string): (h: Header)
    ensures h.name == name && h.mode == node.perm
    ensures h.typeflag == (match node case Dir(_, _) => TypeDir case File(_, _) => TypeReg case Symlink(_, _) => TypeSymlink)
    ensures h.size == (if node.File? then |node.bytes| else 0)
    ensures h.linkname == (if node.Symlink? then node.target else "")
  {
    match node
    case Dir(perm, _) => Header(name, TypeDir, perm, 0, "")
    case File(perm, bytes) => Header(name, TypeReg, perm, |bytes|, "")
    case Symlink(perm, target) => Header(name, TypeSymlink, perm, 0, target)
  }

  /** The member a file, a symlink or an empty directory becomes: its header, and a file's bytes. */
  function LeafEntry(node: Node, name: string): (e: Entry)
    ensures Complete(e) && e.hdr.name == name
    ensures e.hdr.typeflag == TypeSymlink <==> node.Symlink?
    ensures node.Symlink? ==> e.hdr.linkname == node.target && e.body == []
    ensures node.File? ==> e.hdr.typeflag == TypeReg && e.body == node.bytes
    ensures node.Dir? ==> e.hdr.typeflag == TypeDir && e.body == []
  {
    Entry(HeaderOf(node, name), if node.File? then node.bytes else [])
  }

  /** What the walk archives on its own: a file, a symlink, or a directory without children. */
  predicate Leaf(node: Node)
  {
    !node.Dir? || node.children == []
  }

  /** A measure for the walk: a directory is above the walk over its children. */
  function Fanout(node: Node): nat
  {
    if node.Dir? then |node.children| + 1 else 1
  }

  /**
   * `recursiveTar` on a node found at `path`, to be named `destFile`: nothing when the exclusion
   * globs match its path, one entry for a leaf, and the walks of a directory's children in turn,
   * each named below the slashed `destFile`. A failing glob match ends the walk with its error.
   */
  function Walk(node: Node, path: seq<string>, destFile: string, sep: char, excluded: string -> Result<bool>)
    : Trace<Entry>
    decreases node, Fanout(node)
  {
    var dest := ToSlash(destFile, sep);
    match excluded(LocalName(path, sep))
    case Err(e) => Trace([], Some(e))
    case Ok(skip) =>
      if skip then Trace([], None)
      else if Leaf(node) then Trace([LeafEntry(node, dest)], None)
      else WalkChildren(node, |node.children|, path, dest, sep, excluded)
  }

  /** The walks of the first `k` children of a directory, stopping at the first error. */
  function WalkChildren(parent: Node, k: nat, path: seq<string>, dest: string, sep: char,
                        excluded: string -> Result<bool>): Trace<Entry>
    requires parent.Dir? && k <= |parent.children|
    decreases parent, k
  {
    if k == 0 then Trace([], None)
    else Then(WalkChildren(parent, k - 1, path, dest, sep, excluded), ChildWalk(parent, k - 1, path, dest, sep, excluded))
  }

  /** The walk of the `i`th child of a directory, found at the directory's path and named below it. */
  function ChildWalk(parent: Node, i: nat, path: seq<string>, dest: string, sep: char,
                     excluded: string -> Result<bool>): Trace<Entry>
    requires parent.Dir? && i < |parent.children|
    decreases parent, i
  {
    var child := parent.children[i];
    Walk(child.node, path + [child.name], JoinName(dest, child.name, sep), sep, excluded)
  }

  /** Every member received all the bytes its header announces, and every name is slashed. */
  predicate WellNamed(entries: seq<Entry>, sep: char)
  {
    forall i :: 0 <= i < |entries| ==> Complete(entries[i]) && Slashed(entries[i].hdr.name, sep)
  }

  /** The walk writes complete members under slashed names. */
  lemma {:induction false} WalkComplete(node: Node, path: seq<string>, destFile: string, sep: char,
                                        excluded: string -> Result<bool>)
    ensures WellNamed(Walk(node, path, destFile, sep, excluded).ops, sep)
    decreases node, Fanout(node)
  {
    ToSlashSlashed(destFile, sep);
    if excluded(LocalName(path, sep)) == Ok(false) && !Leaf(node) {
      WalkChildrenComplete(node, |node.children|, path, ToSlash(destFile, sep), sep, excluded);
    }
  }

  lemma {:induction false} WalkChildrenComplete(parent: Node, k: nat, path: seq<string>, dest: string, sep: char,
                                                excluded: string -> Result<bool>)
    requires parent.Dir? && k <= |parent.children|
    ensures WellNamed(WalkChildren(parent, k, path, dest, sep, excluded).ops, sep)
    decreases parent, k
  {
    if k > 0 {
      var child := parent.children[k - 1];
      var first := WalkChildren(parent, k - 1, path, dest, sep, excluded);
      var next := Walk(child.node, path + [child.name], JoinName(dest, child.name, sep), sep, excluded);
      WalkChildrenComplete(parent, k - 1, path, dest, sep, excluded);
      WalkComplete(child.node, path + [child.name], JoinName(dest, child.name, sep), sep, excluded);
      if first.err.None? {
        WellNamedAppend(first.ops, next.ops, sep);
      }
    }
  }

  lemma WellNamedAppend(a: seq<Entry>, b: seq<Entry>, sep: char)
    requires WellNamed(a, sep) && WellNamed(b, sep)
    ensures WellNamed(a + b, sep)
  {
    assert forall i :: |a| <= i < |a + b| ==> (a + b)[i] == b[i - |a|];
  }

  /** Once a walk over some children has failed, the later children are not walked. */
  lemma {:induction false} WalkChildrenStops(parent: Node, i: nat, n: nat, path: seq<string>, dest: string, sep: char,
                                             excluded: string -> Result<bool>)
    requires parent.Dir? && i <= n <= |parent.children|
    requires WalkChildren(parent, i, path, dest, sep, excluded).err.Some?
    ensures WalkChildren(parent, n, path, dest, sep, excluded) == WalkChildren(parent, i, path, dest, sep, excluded)
    decreases n
  {
    if n > i {
      WalkChildrenStops(parent, i, n - 1, path, dest, sep, excluded);
    }
  }

  // ---- what the walk archives, node by node ----------------------------------------------------

  /** The name the walk gives the node at `rel` below a node named `destFile`. */
  function DestName(destFile: string, rel: seq<string>, sep: char): string
    decreases |rel|
  {
    if rel == [] then ToSlash(destFile, sep)
    else DestName(JoinName(ToSlash(destFile, sep), rel[0], sep), rel[1..], sep)
  }

  /** No exclusion glob matches the node at `rel` below `path`, nor any directory on the way to it. */
  predicate Kept(path: seq<string>, rel: seq<string>, sep: char, excluded: string -> Result<bool>)
  {
    forall j :: 0 <= j <= |rel| ==> excluded(LocalName(path + rel[..j], sep)) == Ok(false)
  }

  /**
   * `e` is the member for the node at `rel` below `node`: that node is a leaf, it and the
   * directories above it are kept, and `e` is its header and bytes under the name the walk gives it.
   */
  predicate Origin(node: Node, path: seq<string>, destFile: string, sep: char, excluded: string -> Result<bool>,
                   rel: seq<string>, e: Entry)
  {
    && Lookup(node, rel).Some?
    && Leaf(Lookup(node, rel).value)
    && Kept(path, rel, sep, excluded)
    && e == LeafEntry(Lookup(node, rel).value, DestName(destFile, rel, sep))
  }

  ghost predicate Explained(node: Node, path: seq<string>, destFile: string, sep: char, excluded: string -> Result<bool>,
                      e: Entry)
  {
    exists rel :: Origin(node, path, destFile, sep, excluded, rel, e)
  }

  /** With distinct names, the child a name leads to is the child of that name. */
  lemma {:induction false} ChildNamedAt(children: seq<Child>, i: int)
    requires 0 <= i < |children|
    requires forall a, b :: 0 <= a < b < |children| ==> children[a].name != children[b].name
    ensures ChildNamed(children, children[i].name) == Some(children[i].node)
  {
    if i > 0 {
      assert children[0].name != children[i].name;
      ChildNamedAt(children[1..], i - 1);
    }
  }

  /** The child a name leads to is one of the children, under that name. */
  lemma {:induction false} ChildNamedFound(children: seq<Child>, name: string)
    requires ChildNamed(children, name).Some?
    ensures exists i :: 0 <= i < |children| && children[i] == Child(name, ChildNamed(children, name).value)
  {
    if children[0].name != name {
      ChildNamedFound(children[1..], name);
      var i :| 0 <= i < |children[1..]| && children[1..][i] == Child(name, ChildNamed(children[1..], name).value);
      assert children[i + 1] == children[1..][i];
    } else {
      assert children[0] == Child(name, ChildNamed(children, name).value);
    }
  }

  /** The path through a child of distinct name leads to what the path below that child leads to. */
  lemma LookupCons(node: Node, i: int, rel: seq<string>)
    requires node.Dir? && 0 <= i < |node.children|
    requires forall a, b :: 0 <= a < b < |node.children| ==> node.children[a].name != node.children[b].name
    ensures Lookup(node, [node.children[i].name] + rel) == Lookup(node.children[i].node, rel)
  {
    var full := [node.children[i].name] + rel;
    ChildNamedAt(node.children, i);
    assert full[0] == node.children[i].name && full[1..] == rel;
  }

  /** A kept path below a kept directory is kept from above that directory. */
  lemma KeptCons(path: seq<string>, name: string, rel: seq<string>, sep: char, excluded: string -> Result<bool>)
    requires excluded(LocalName(path, sep)) == Ok(false) && Kept(path + [name], rel, sep, excluded)
    ensures Kept(path, [name] + rel, sep, excluded)
  {
    var full := [name] + rel;
    forall j | 0 <= j <= |full|
      ensures excluded(LocalName(path + full[..j], sep)) == Ok(false)
    {
      if j == 0 {
        assert path + full[..j] == path;
      } else {
        assert path + full[..j] == (path + [name]) + rel[..j - 1];
      }
    }
  }

  /** A kept path is kept from its first step on, and that first step is kept. */
  lemma KeptUncons(path: seq<string>, rel: seq<string>, sep: char, excluded: string -> Result<bool>)
    requires rel != [] && Kept(path, rel, sep, excluded)
    ensures excluded(LocalName(path, sep)) == Ok(false)
    ensures Kept(path + [rel[0]], rel[1..], sep, excluded)
  {
    assert path + rel[..0] == path;
    forall j | 0 <= j <= |rel[1..]|
      ensures excluded(LocalName((path + [rel[0]]) + rel[1..][..j], sep)) == Ok(false)
    {
      assert (path + [rel[0]]) + rel[1..][..j] == path + rel[..j + 1];
    }
  }

  /** A kept directory and a member of its child's walk: the member is explained from the directory. */
  lemma OriginCons(node: Node, i: int, path: seq<string>, destFile: string, sep: char,
                   excluded: string -> Result<bool>, rel: seq<string>, e: Entry)
    requires node.Dir? && UniqueNames(node) && 0 <= i < |node.children|
    requires excluded(LocalName(path, sep)) == Ok(false)
    requires var child := node.children[i];
             Origin(child.node, path + [child.name], JoinName(ToSlash(destFile, sep), child.name, sep), sep, excluded, rel, e)
    ensures Origin(node, path, destFile, sep, excluded, [node.children[i].name] + rel, e)
  {
    var child := node.children[i];
    var full := [child.name] + rel;
    LookupCons(node, i, rel);
    KeptCons(path, child.name, rel, sep, excluded);
    assert full[0] == child.name && full[1..] == rel;
    assert DestName(destFile, full, sep) == DestName(JoinName(ToSlash(destFile, sep), child.name, sep), rel, sep);
  }

  /** The member for a node below a child, seen from that child. */
  lemma OriginUncons(node: Node, path: seq<string>, destFile: string, sep: char,
                     excluded: string -> Result<bool>, rel: seq<string>, e: Entry)
    requires rel != [] && Origin(node, path, destFile, sep, excluded, rel, e)
    ensures node.Dir? && ChildNamed(node.children, rel[0]).Some?
    ensures excluded(LocalName(path, sep)) == Ok(false)
    ensures Origin(ChildNamed(node.children, rel[0]).value, path + [rel[0]], JoinName(ToSlash(destFile, sep), rel[0], sep),
                   sep, excluded, rel[1..], e)
  {
    KeptUncons(path, rel, sep, excluded);
  }

  /**
   * Every member of the walk is a leaf below the walked node that no exclusion glob removed, neither
   * itself nor a directory above it, under the name the walk gives it.
   */
  lemma {:induction false} WalkSound(node: Node, path: seq<string>, destFile: string, sep: char,
                                     excluded: string -> Result<bool>)
    requires UniqueNames(node)
    ensures forall e :: e in Walk(node, path, destFile, sep, excluded).ops ==>
              Explained(node, path, destFile, sep, excluded, e)
    decreases node, Fanout(node)
  {
    var ops := Walk(node, path, destFile, sep, excluded).ops;
    if excluded(LocalName(path, sep)) == Ok(false) {
      if Leaf(node) {
        assert path + [][..0] == path;
        assert Origin(node, path, destFile, sep, excluded, [], LeafEntry(node, ToSlash(destFile, sep)));
      } else {
        var dest := ToSlash(destFile, sep);
        WalkChildrenSound(node, |node.children|, path, dest, sep, excluded);
        forall e | e in ops
          ensures Explained(node, path, destFile, sep, excluded, e)
        {
          var i :| 0 <= i < |node.children| &&
                   Explained(node.children[i].node, path + [node.children[i].name],
                             JoinName(dest, node.children[i].name, sep), sep, excluded, e);
          var rel :| Origin(node.children[i].node, path + [node.children[i].name],
                            JoinName(dest, node.children[i].name, sep), sep, excluded, rel, e);
          OriginCons(node, i, path, destFile, sep, excluded, rel, e);
        }
      }
    }
  }

  lemma {:induction false} WalkChildrenSound(parent: Node, k: nat, path: seq<string>, dest: string, sep: char,
                                             excluded: string -> Result<bool>)
    requires parent.Dir? && k <= |parent.children| && UniqueNames(parent)
    ensures forall e :: e in WalkChildren(parent, k, path, dest, sep, excluded).ops ==>
              exists i :: 0 <= i < k &&
                Explained(parent.children[i].node, path + [parent.children[i].name],
                          JoinName(dest, parent.children[i].name, sep), sep, excluded, e)
    decreases parent, k
  {
    if k > 0 {
      var child := parent.children[k - 1];
      WalkChildrenSound(parent, k - 1, path, dest, sep, excluded);
      WalkSound(child.node, path + [child.name], JoinName(dest, child.name, sep), sep, excluded);
    }
  }

  /** Every member of `a` is a member of `b`. */
  predicate Within(a: seq<Entry>, b: seq<Entry>)
  {
    forall e :: e in a ==> e in b
  }

  /** A chain that ran to completion ran both its parts to completion and holds their members. */
  lemma ThenParts(first: Trace<Entry>, next: Trace<Entry>)
    requires Then(first, next).err == None
    ensures first.err == None && next.err == None
    ensures Within(first.ops, Then(first, next).ops) && Within(next.ops, Then(first, next).ops)
  {
  }

  /** A walk that ends without error archives each of its children's walks whole. */
  lemma {:induction false} WalkChildrenContains(parent: Node, k: nat, i: nat, path: seq<string>, dest: string,
                                                sep: char, excluded: string -> Result<bool>)
    requires parent.Dir? && i < k <= |parent.children|
    requires WalkChildren(parent, k, path, dest, sep, excluded).err == None
    ensures var w := ChildWalk(parent, i, path, dest, sep, excluded);
            w.err == None && Within(w.ops, WalkChildren(parent, k, path, dest, sep, excluded).ops)
    decreases k
  {
    var first := WalkChildren(parent, k - 1, path, dest, sep, excluded);
    var next := ChildWalk(parent, k - 1, path, dest, sep, excluded);
    var all := WalkChildren(parent, k, path, dest, sep, excluded);
    assert all == Then(first, next);
    ThenParts(first, next);
    if i < k - 1 {
      WalkChildrenContains(parent, k - 1, i, path, dest, sep, excluded);
      var w := ChildWalk(parent, i, path, dest, sep, excluded);
      assert Within(w.ops, first.ops);
      assert Within(w.ops, all.ops);
    }
  }

  /**
   * A walk that ends without error archives every leaf below the walked node that no exclusion glob
   * removed, neither itself nor a directory above it.
   */
  lemma {:induction false} WalkFindsLeaves(node: Node, path: seq<string>, destFile: string, sep: char,
                                           excluded: string -> Result<bool>)
    requires Walk(node, path, destFile, sep, excluded).err == None
    ensures forall rel, e :: Origin(node, path, destFile, sep, excluded, rel, e) ==>
              e in Walk(node, path, destFile, sep, excluded).ops
    decreases node
  {
    forall rel, e | Origin(node, path, destFile, sep, excluded, rel, e)
      ensures e in Walk(node, path, destFile, sep, excluded).ops
    {
      if rel == [] {
        assert path + rel[..0] == path;
      } else {
        OriginUncons(node, path, destFile, sep, excluded, rel, e);
        ChildNamedFound(node.children, rel[0]);
        var i :| 0 <= i < |node.children| && node.children[i] == Child(rel[0], ChildNamed(node.children, rel[0]).value);
        var dest := ToSlash(destFile, sep);
        WalkChildrenContains(node, |node.children|, i, path, dest, sep, excluded);
        assert node.children[i].name == rel[0];
        WalkFindsLeaves(node.children[i].node, path + [rel[0]], JoinName(dest, rel[0], sep), sep, excluded);
      }
    }
  }

  /** Names of directory entries, as `ReadDir` lists them: never empty and never ".". */
  predicate Named(rel: seq<string>)
  {
    forall i :: 0 <= i < |rel| ==> rel[i] != "" && rel[i] != "."
  }

  /** ToSlash converts a join piece by piece (a path separator is never '.'). */
  lemma ToSlashJoin(dir: string, name: string, sep: char)
    requires sep != '.'
    ensures ToSlash(JoinName(ToSlash(dir, sep), name, sep), sep) == ToSlash(JoinName(dir, name, sep), sep)
  {
  }

  /** Joining names from the front gives the same path as joining them from the back. */
  lemma {:induction false} JoinAllCons(name: string, rel: seq<string>, sep: char)
    requires Named([name]) && Named(rel)
    ensures JoinAll([name] + rel, sep) == JoinName(name, JoinAll(rel, sep), sep)
    ensures rel != [] ==> JoinAll(rel, sep) != ""
    decreases |rel|
  {
    var full := [name] + rel;
    if |rel| == 1 {
      assert full[..1] == [name];
    } else if |rel| > 1 {
      var init := rel[..|rel| - 1];
      JoinAllCons(name, init, sep);
      assert full[..|full| - 1] == [name] + init;
    }
  }

  /** Joins regroup when the middle part is a name. */
  lemma JoinNameAssoc(a: string, b: string, c: string, sep: char)
    requires b != "" && b != "."
    ensures JoinName(JoinName(a, b, sep), c, sep) == JoinName(a, JoinName(b, c, sep), sep)
  {
  }

  /**
   * The walk names the node at `rel` by joining its names below `destFile` and slashing the result:
   * in the whole-tree mode, where `destFile` is empty, and in the watch mode for the source directory
   * itself, where it is ".", a member's name is its path relative to the archived directory, with
   * '/' between the names.
   */
  lemma {:induction false} DestNameIsJoin(destFile: string, rel: seq<string>, sep: char)
    requires Named(rel) && sep != '.'
    ensures DestName(destFile, rel, sep) == ToSlash(JoinName(destFile, JoinAll(rel, sep), sep), sep)
    ensures rel != [] && (destFile == "" || destFile == ".") ==> DestName(destFile, rel, sep) == ToSlash(JoinAll(rel, sep), sep)
    decreases |rel|
  {
    if rel != [] {
      var name := rel[0];
      var rest := rel[1..];
      assert [name] + rest == rel;
      DestNameIsJoin(JoinName(ToSlash(destFile, sep), name, sep), rest, sep);
      JoinAllCons(name, rest, sep);
      JoinNameAssoc(ToSlash(destFile, sep), name, JoinAll(rest, sep), sep);
      ToSlashJoin(JoinName(ToSlash(destFile, sep), name, sep), JoinAll(rest, sep), sep);
      ToSlashJoin(destFile, JoinName(name, JoinAll(rest, sep), sep), sep);
    } else {
      ToSlashSlashed(destFile, sep);
    }
  }

  /**
   * The body of `recursiveTar` once its path is found: writes what Walk specifies. The writer is
   * open and holds complete members, so its header and write calls cannot fail here.
   */
  method WriteNode(tw: TarWriter, node: Node, path: seq<string>, destFile: string, sep: char,
                   excluded: string -> Result<bool>) returns (err: Option<string>)
    requires !tw.closed && tw.Flushed()
    modifies tw
    ensures !tw.closed && tw.Flushed()
    ensures tw.entries == old(tw.entries) + Walk(node, path, destFile, sep, excluded).ops
    ensures err == Walk(node, path, destFile, sep, excluded).err
    decreases node, Fanout(node)
  {
    var dest := ToSlash(destFile, sep);
    var matched := excluded(LocalName(path, sep));
    if matched.Err? {
      return Some(matched.msg);
    }
    if matched.value {
      return None;
    }
    if Leaf(node) {
      WriteLeaf(tw, node, dest);
      err := None;
    } else {
      err := WriteChildren(tw, node, path, dest, sep, excluded);
    }
  }

  /** The header of a file, a symlink or an empty directory, and a file's bytes after it. */
  method WriteLeaf(tw: TarWriter, node: Node, name: string)
    requires !tw.closed && tw.Flushed()
    modifies tw
    ensures !tw.closed && tw.Flushed()
    ensures tw.entries == old(tw.entries) + [LeafEntry(node, name)]
  {
    ghost var before := tw.entries;
    var err := tw.WriteHeader(HeaderOf(node, name));
    if node.File? {
      assert tw.entries == before + [Entry(HeaderOf(node, name), [])];
      err := tw.Write(node.bytes);
      assert tw.entries[..|tw.entries| - 1] == before;
      assert [] + node.bytes == node.bytes;
    }
  }

  /**
   * One more child walked: its members follow those of the children before it, and when its walk
   * fails, so does the walk of the whole directory, with the same members and error.
   */
  lemma ChildStep(parent: Node, i: nat, path: seq<string>, dest: string, sep: char,
                  excluded: string -> Result<bool>, before: seq<Entry>)
    requires parent.Dir? && i < |parent.children|
    requires WalkChildren(parent, i, path, dest, sep, excluded).err == None
    ensures var child := parent.children[i];
            var next := Walk(child.node, path + [child.name], JoinName(dest, child.name, sep), sep, excluded);
            var done := WalkChildren(parent, i + 1, path, dest, sep, excluded);
            && before + WalkChildren(parent, i, path, dest, sep, excluded).ops + next.ops == before + done.ops
            && done.err == next.err
            && (next.err.Some? ==> WalkChildren(parent, |parent.children|, path, dest, sep, excluded) == done)
  {
    var child := parent.children[i];
    var next := Walk(child.node, path + [child.name], JoinName(dest, child.name, sep), sep, excluded);
    AppendAssoc(before, WalkChildren(parent, i, path, dest, sep, excluded).ops, next.ops);
    if next.err.Some? {
      WalkChildrenStops(parent, i + 1, |parent.children|, path, dest, sep, excluded);
    }
  }

  /** The loop over a directory's children, each walked in turn until one fails. */
  method WriteChildren(tw: TarWriter, parent: Node, path: seq<string>, dest: string, sep: char,
                       excluded: string -> Result<bool>) returns (err: Option<string>)
    requires parent.Dir?
    requires !tw.closed && tw.Flushed()
    modifies tw
    ensures !tw.closed && tw.Flushed()
    ensures tw.entries == old(tw.entries) + WalkChildren(parent, |parent.children|, path, dest, sep, excluded).ops
    ensures err == WalkChildren(parent, |parent.children|, path, dest, sep, excluded).err
    decreases parent, |parent.children|
  {
    var children := parent.children;
    for i := 0 to |children|
      invariant !tw.closed && tw.Flushed()
      invariant WalkChildren(parent, i, path, dest, sep, excluded).err == None
      invariant tw.entries == old(tw.entries) + WalkChildren(parent, i, path, dest, sep, excluded).ops
    {
      ChildStep(parent, i, path, dest, sep, excluded, old(tw.entries));
      err := WriteNode(tw, children[i].node, path + [children[i].name], JoinName(dest, children[i].name, sep),
                       sep, excluded);
      if err.Some? {
        return;
      }
    }
    err := None;
  }

  // ---- recursiveTar and makeTar ------------------------------------------------------------------

  /**
   * `recursiveTar` on a path: `filepath.Glob` of a literal path finds the path when it exists, and
   * nothing otherwise; what it finds is walked.
   */
  function TarPath(root: Node, path: seq<string>, destFile: string, sep: char,
                   excluded: string -> Result<bool>): Trace<Entry>
  {
    match Lookup(root, path)
    case None => Trace([], None)
    case Some(node) => Walk(node, path, destFile, sep, excluded)
  }

  method RecursiveTar(tw: TarWriter, root: Node, path: seq<string>, destFile: string, sep: char,
                      excluded: string -> Result<bool>) returns (err: Option<string>)
    requires !tw.closed && tw.Flushed()
    modifies tw
    ensures !tw.closed && tw.Flushed()
    ensures tw.entries == old(tw.entries) + TarPath(root, path, destFile, sep, excluded).ops
    ensures err == TarPath(root, path, destFile, sep, excluded).err
  {
    var found := Lookup(root, path);
    if found.None? {
      return None;
    }
    err := WriteNode(tw, found.value, path, destFile, sep, excluded);
  }

  /**
   * One listed file of the watch mode: skipped when it does not exist; otherwise archived from the
   * path its relative path reaches from the source directory, under that relative path. `relative`
   * stands for `util.GetAbsPath` followed by `filepath.Rel`, which may fail; it gives the clean
   * relative path as its names, [] for the source directory itself and ".." for a step up.
   */
  function ListedFile(root: Node, srcPath: seq<string>, fileName: string, fileExists: string -> bool,
                      relative: string -> Result<seq<string>>, sep: char, excluded: string -> Result<bool>)
    : Trace<Entry>
  {
    if !fileExists(fileName) then Trace([], None)
    else
      match relative(fileName)
      case Err(e) => Trace([], Some(e))
      case Ok(rel) => TarPath(root, Resolve(srcPath, rel), RelName(rel, sep), sep, excluded)
  }

  /** The listed files archived in turn, stopping at the first error. */
  function ListedFiles(root: Node, srcPath: seq<string>, files: seq<string>, fileExists: string -> bool,
                       relative: string -> Result<seq<string>>, sep: char, excluded: string -> Result<bool>)
    : Trace<Entry>
    decreases |files|
  {
    if files == [] then Trace([], None)
    else
      Then(ListedFiles(root, srcPath, files[..|files| - 1], fileExists, relative, sep, excluded),
           ListedFile(root, srcPath, files[|files| - 1], fileExists, relative, sep, excluded))
  }

  /**
   * `makeTar`: the listed files when there are any, otherwise the whole tree at `srcPath`, whose
   * members are named relative to it (the walk starts with an empty name).
   */
  function MakeTarTrace(root: Node, srcPath: seq<string>, files: seq<string>, fileExists: string -> bool,
                        relative: string -> Result<seq<string>>, sep: char, excluded: string -> Result<bool>)
    : Trace<Entry>
  {
    if |files| != 0 then ListedFiles(root, srcPath, files, fileExists, relative, sep, excluded)
    else TarPath(root, srcPath, "", sep, excluded)
  }

  lemma ListedStep(root: Node, srcPath: seq<string>, files: seq<string>, i: nat, fileExists: string -> bool,
                   relative: string -> Result<seq<string>>, sep: char, excluded: string -> Result<bool>,
                   before: seq<Entry>)
    requires i < |files|
    requires ListedFiles(root, srcPath, files[..i], fileExists, relative, sep, excluded).err == None
    ensures var next := ListedFile(root, srcPath, files[i], fileExists, relative, sep, excluded);
            var done := ListedFiles(root, srcPath, files[..i + 1], fileExists, relative, sep, excluded);
            && before + ListedFiles(root, srcPath, files[..i], fileExists, relative, sep, excluded).ops + next.ops
               == before + done.ops
            && done.err == next.err
            && (next.err.Some? ==> ListedFiles(root, srcPath, files, fileExists, relative, sep, excluded) == done)
  {
    var next := ListedFile(root, srcPath, files[i], fileExists, relative, sep, excluded);
    assert files[..i + 1][..i] == files[..i];
    AppendAssoc(before, ListedFiles(root, srcPath, files[..i], fileExists, relative, sep, excluded).ops, next.ops);
    if next.err.Some? {
      ListedFilesStop(root, srcPath, files, i + 1, |files|, fileExists, relative, sep, excluded);
      assert files[..|files|] == files;
    }
  }

  /** Once a listed file has failed, the later ones are not archived. */
  lemma {:induction false} ListedFilesStop(root: Node, srcPath: seq<string>, files: seq<string>, i: nat, n: nat,
                                           fileExists: string -> bool, relative: string -> Result<seq<string>>, sep: char,
                                           excluded: string -> Result<bool>)
    requires i <= n <= |files|
    requires ListedFiles(root, srcPath, files[..i], fileExists, relative, sep, excluded).err.Some?
    ensures ListedFiles(root, srcPath, files[..n], fileExists, relative, sep, excluded)
            == ListedFiles(root, srcPath, files[..i], fileExists, relative, sep, excluded)
    decreases n
  {
    if n > i {
      ListedFilesStop(root, srcPath, files, i, n - 1, fileExists, relative, sep, excluded);
      assert files[..n][..n - 1] == files[..n - 1];
    }
  }

  /**
   * In the watch mode, listing the source directory itself names its entries by their own names: the
   * relative path is "." and a name joined below "." is the name.
   */
  lemma ListedSourceDirectory(content: seq<bv8>, fileExists: string -> bool, relative: string -> Result<seq<string>>,
                              excluded: string -> Result<bool>)
    requires fileExists("src") && relative("src") == Ok([])
    requires forall p :: excluded(p) == Ok(false)
    ensures ListedFile(Dir(0, [Child("src", Dir(0, [Child("a", File(0, content))]))]), ["src"], "src",
                       fileExists, relative, '/', excluded).ops
            == [LeafEntry(File(0, content), "a")]
  {
    var src := Dir(0, [Child("a", File(0, content))]);
    var root := Dir(0, [Child("src", src)]);
    assert ChildNamed(root.children, "src") == Some(src);
    assert Lookup(root, ["src"]) == Some(src);
    assert RelName([], '/') == ".";
    assert JoinName(".", "a", '/') == "a";
    assert ToSlash("a", '/') == "a" && ToSlash(".", '/') == ".";
    var w := Walk(File(0, content), ["src", "a"], "a", '/', excluded);
    assert w.ops == [LeafEntry(File(0, content), "a")];
    assert ChildWalk(src, 0, ["src"], ".", '/', excluded) == w;
    assert WalkChildren(src, 1, ["src"], ".", '/', excluded).ops == w.ops;
    assert Walk(src, ["src"], ".", '/', excluded).ops == w.ops;
    assert TarPath(root, ["src"], ".", '/', excluded).ops == w.ops;
  }

  /**
   * In the watch mode, a listed file outside the source directory is found through the ".." steps of
   * its relative path, and its member is named by that relative path.
   */
  lemma ListedOutsideSource(content: seq<bv8>, fileExists: string -> bool, relative: string -> Result<seq<string>>,
                            excluded: string -> Result<bool>)
    requires fileExists("f") && relative("f") == Ok(["..", "f"])
    requires forall p :: excluded(p) == Ok(false)
    ensures ListedFile(Dir(0, [Child("src", Dir(0, [])), Child("f", File(0, content))]), ["src"], "f",
                       fileExists, relative, '/', excluded).ops
            == [LeafEntry(File(0, content), "../f")]
  {
    var root := Dir(0, [Child("src", Dir(0, [])), Child("f", File(0, content))]);
    assert Resolve(["src"], ["..", "f"]) == Resolve([], ["f"]) == ["f"];
    assert "src" != "f";
    assert ChildNamed(root.children, "f") == ChildNamed(root.children[1..], "f") == Some(File(0, content));
    assert Lookup(root, ["f"]) == Some(File(0, content));
    assert RelName(["..", "f"], '/') == JoinAll(["..", "f"], '/') == "../f";
    assert ToSlash("../f", '/') == "../f";
  }

  /** In the watch mode, listed files none of which exists leave the archive empty and cause no error. */
  lemma {:induction false} ListedFilesMissing(root: Node, srcPath: seq<string>, files: seq<string>,
                                              fileExists: string -> bool, relative: string -> Result<seq<string>>,
                                              sep: char, excluded: string -> Result<bool>)
    requires forall i :: 0 <= i < |files| ==> !fileExists(files[i])
    ensures ListedFiles(root, srcPath, files, fileExists, relative, sep, excluded) == Trace([], None)
    decreases |files|
  {
    if files != [] {
      ListedFilesMissing(root, srcPath, files[..|files| - 1], fileExists, relative, sep, excluded);
    }
  }

  /**
   * In the watch mode every member comes from a listed file that exists and whose path relative to
   * the source directory was found: it is a member of the walk of that path.
   */
  lemma {:induction false} ListedFilesSound(root: Node, srcPath: seq<string>, files: seq<string>,
                                            fileExists: string -> bool, relative: string -> Result<seq<string>>,
                                            sep: char, excluded: string -> Result<bool>)
    ensures forall e :: e in ListedFiles(root, srcPath, files, fileExists, relative, sep, excluded).ops ==>
              exists i :: 0 <= i < |files| && FromListed(root, srcPath, files[i], fileExists, relative, sep, excluded, e)
    decreases |files|
  {
    if files != [] {
      var init := files[..|files| - 1];
      ListedFilesSound(root, srcPath, init, fileExists, relative, sep, excluded);
      forall e | e in ListedFiles(root, srcPath, files, fileExists, relative, sep, excluded).ops
        ensures exists i :: 0 <= i < |files| && FromListed(root, srcPath, files[i], fileExists, relative, sep, excluded, e)
      {
        if e in ListedFiles(root, srcPath, init, fileExists, relative, sep, excluded).ops {
          var i :| 0 <= i < |init| && FromListed(root, srcPath, init[i], fileExists, relative, sep, excluded, e);
          assert files[i] == init[i];
        } else {
          assert FromListed(root, srcPath, files[|files| - 1], fileExists, relative, sep, excluded, e);
        }
      }
    }
  }

  /** `e` is a member of the walk of the listed file `fileName`, which exists and was found. */
  predicate FromListed(root: Node, srcPath: seq<string>, fileName: string, fileExists: string -> bool,
                       relative: string -> Result<seq<string>>, sep: char, excluded: string -> Result<bool>, e: Entry)
  {
    && fileExists(fileName)
    && relative(fileName).Ok?
    && Lookup(root, Resolve(srcPath, relative(fileName).value)).Some?
    && e in Walk(Lookup(root, Resolve(srcPath, relative(fileName).value)).value, Resolve(srcPath, relative(fileName).value),
                 RelName(relative(fileName).value, sep), sep, excluded).ops
  }

  /**
   * `makeTar`: in watch mode each listed file that exists is archived from its path relative to the
   * source directory; otherwise the whole tree is. `destPath` only names the destination in logs.
   */
  method MakeTar(tw: TarWriter, root: Node, srcPath: seq<string>, destPath: string, files: seq<string>,
                 fileExists: string -> bool, relative: string -> Result<seq<string>>, sep: char,
                 excluded: string -> Result<bool>) returns (err: Option<string>)
    requires !tw.closed && tw.Flushed()
    modifies tw
    ensures !tw.closed && tw.Flushed()
    ensures tw.entries == old(tw.entries) + MakeTarTrace(root, srcPath, files, fileExists, relative, sep, excluded).ops
    ensures err == MakeTarTrace(root, srcPath, files, fileExists, relative, sep, excluded).err
  {
    if |files| == 0 {
      err := RecursiveTar(tw, root, srcPath, "", sep, excluded);
      return;
    }
    for i := 0 to |files|
      invariant !tw.closed && tw.Flushed()
      invariant ListedFiles(root, srcPath, files[..i], fileExists, relative, sep, excluded).err == None
      invariant tw.entries == old(tw.entries) + ListedFiles(root, srcPath, files[..i], fileExists, relative, sep, excluded).ops
    {
      ListedStep(root, srcPath, files, i, fileExists, relative, sep, excluded, old(tw.entries));
      var fileName := files[i];
      if fileExists(fileName) {
        var rel := relative(fileName);
        if rel.Err? {
          return Some(rel.msg);
        }
        err := RecursiveTar(tw, root, Resolve(srcPath, rel.value), RelName(rel.value, sep), sep, excluded);
        if err.Some? {
          return;
        }
      }
    }
    assert files[..|files|] == files;
    err := None;
  }

  // ---- CopyFile ---------------------------------------------------------------------------------

  /** The last name of a local path (`filepath.Base`); the root has none. */
  function BaseName(path: seq<string>): string
  {
    if path == [] then "" else path[|path| - 1]
  }

  /** Where the archive is said to go: `targetPath` joined with the base name of the local path, slashed. */
  function Destination(targetPath: string, localPath: seq<string>, sep: char): string
  {
    ToSlash(JoinName(targetPath, BaseName(localPath), sep), sep)
  }

  /** An in-memory payload's member: mode 7770 (a decimal literal in the source) and its bytes. */
  function PayloadEntry(name: string, content: seq<bv8>): (e: Entry)
    ensures Complete(e)
  {
    Entry(Header(name, TypeReg, 7770, |content|, ""), content)
  }

  /** The payloads, one member each, in the order the map is ranged over. */
  function Payloads(copyBytes: map<string, seq<bv8>>, order: seq<string>): (r: seq<Entry>)
    requires forall i :: 0 <= i < |order| ==> order[i] in copyBytes
    ensures |r| == |order|
    ensures forall i :: 0 <= i < |order| ==> r[i] == PayloadEntry(order[i], copyBytes[order[i]])
    decreases |order|
  {
    if order == [] then []
    else Payloads(copyBytes, order[..|order| - 1]) + [PayloadEntry(order[|order| - 1], copyBytes[order[|order| - 1]])]
  }

  /** What the archiving side of `CopyFile` produces: what the walk wrote, then the payloads. */
  function Archive(walked: Trace<Entry>, copyBytes: map<string, seq<bv8>>, order: seq<string>): Trace<Entry>
    requires forall i :: 0 <= i < |order| ==> order[i] in copyBytes
  {
    if walked.err.Some? then walked else Trace(walked.ops + Payloads(copyBytes, order), None)
  }

  /** Each name of the range order is a key of the map. */
  lemma KeysListed(order: seq<string>, copyBytes: map<string, seq<bv8>>)
    requires Enumerates(order, copyBytes.Keys)
    ensures forall i :: 0 <= i < |order| ==> order[i] in copyBytes
  {
    forall i | 0 <= i < |order|
      ensures order[i] in copyBytes
    {
      assert order[i] in order;
    }
  }

  /** `entries` hold each key of the map exactly once, under its own name, with its bytes. */
  ghost predicate CoversMap(entries: seq<Entry>, copyBytes: map<string, seq<bv8>>)
  {
    && (forall name :: name in copyBytes <==> exists i :: 0 <= i < |entries| && entries[i].hdr.name == name)
    && (forall i, j :: 0 <= i < j < |entries| ==> entries[i].hdr.name != entries[j].hdr.name)
    && (forall i :: 0 <= i < |entries| ==>
          entries[i].hdr.name in copyBytes && entries[i].body == copyBytes[entries[i].hdr.name])
  }

  /** The range loop writes every entry of `copyBytes` and nothing else. */
  lemma PayloadsCoverMap(copyBytes: map<string, seq<bv8>>, order: seq<string>)
    requires Enumerates(order, copyBytes.Keys)
    ensures forall i :: 0 <= i < |order| ==> order[i] in copyBytes
    ensures CoversMap(Payloads(copyBytes, order), copyBytes)
  {
    KeysListed(order, copyBytes);
    var r := Payloads(copyBytes, order);
    forall name | name in copyBytes
      ensures exists i :: 0 <= i < |r| && r[i].hdr.name == name
    {
      assert name in order;
      var i :| 0 <= i < |order| && order[i] == name;
      assert r[i].hdr.name == name;
    }
    forall i, j | 0 <= i < j < |r|
      ensures r[i].hdr.name != r[j].hdr.name
    {
      assert order[i] != order[j];
    }
    assert CoversMap(r, copyBytes);
  }



  /** How `CopyFile` ends: with the extraction's error, if any, or with the process exiting. */
  datatype CopyOutcome = Returned(err: Option<string>) | Exited(cause: string)

  /** One payload: its header, then its bytes. */
  method WritePayload(tw: TarWriter, name: string, content: seq<bv8>)
    requires !tw.closed && tw.Flushed()
    modifies tw
    ensures !tw.closed && tw.Flushed()
    ensures tw.entries == old(tw.entries) + [PayloadEntry(name, content)]
  {
    ghost var before := tw.entries;
    var err := tw.WriteHeader(Header(name, TypeReg, 7770, |content|, ""));
    assert tw.entries == before + [Entry(Header(name, TypeReg, 7770, |content|, ""), [])];
    err := tw.Write(content);
    assert tw.entries[..|tw.entries| - 1] == before;
    assert [] + content == content;
  }

  /** The loop over `copyBytes`: each payload written in the order the map is ranged over. */
  method WritePayloads(tw: TarWriter, copyBytes: map<string, seq<bv8>>, order: seq<string>)
    requires forall i :: 0 <= i < |order| ==> order[i] in copyBytes
    requires !tw.closed && tw.Flushed()
    modifies tw
    ensures !tw.closed && tw.Flushed()
    ensures tw.entries == old(tw.entries) + Payloads(copyBytes, order)
  {
    for i := 0 to |order|
      invariant !tw.closed && tw.Flushed()
      invariant tw.entries == old(tw.entries) + Payloads(copyBytes, order[..i])
    {
      assert order[..i + 1][..i] == order[..i];
      var name := order[i];
      var content := copyBytes[name];
      WritePayload(tw, name, content);
      AppendAssoc(old(tw.entries), Payloads(copyBytes, order[..i]), [PayloadEntry(name, content)]);
    }
    assert order[..|order|] == order;
  }

  /**
   * The writing side of `CopyFile`: the tree or the listed files, then the payloads, into a fresh
   * writer, which is closed at the end.
   */
  method WriteArchive(root: Node, localPath: seq<string>, dest: string, copyFiles: seq<string>,
                      fileExists: string -> bool, relative: string -> Result<seq<string>>, sep: char,
                      excluded: string -> Result<bool>, copyBytes: map<string, seq<bv8>>, order: seq<string>)
    returns (archive: seq<Entry>, err: Option<string>)
    requires forall i :: 0 <= i < |order| ==> order[i] in copyBytes
    ensures var a := Archive(MakeTarTrace(root, localPath, copyFiles, fileExists, relative, sep, excluded),
                             copyBytes, order);
            err == a.err && (err.None? ==> archive == a.ops)
  {
    ghost var m := MakeTarTrace(root, localPath, copyFiles, fileExists, relative, sep, excluded);
    var tw := new TarWriter();
    err := MakeTar(tw, root, localPath, dest, copyFiles, fileExists, relative, sep, excluded);
    if err.Some? {
      return [], err;
    }
    assert tw.entries == m.ops by { assert [] + m.ops == m.ops; }
    WritePayloads(tw, copyBytes, order);
    var closeErr := tw.Close();
    archive := tw.entries;
  }

  /**
   * `CopyFile`: archives the local tree or the listed files, appends the payloads, and has the
   * client extract the archive under the slashed `targetPath` in the component's container. A
   * failure while archiving ends the process.
   */
  method CopyFile(c: Cluster.Client, root: Node, localPath: seq<string>, compInfo: Cluster.ComponentInfo,
                  targetPath: string, copyFiles: seq<string>, fileExists: string -> bool,
                  relative: string -> Result<seq<string>>, sep: char, excluded: string -> Result<bool>,
                  copyBytes: map<string, seq<bv8>>, order: seq<string>) returns (outcome: CopyOutcome)
    requires Enumerates(order, copyBytes.Keys)
    modifies c`log
    ensures var a := Archive(MakeTarTrace(root, localPath, copyFiles, fileExists, relative, sep, excluded),
                             copyBytes, order);
            && (a.err.Some? ==> outcome == Exited(a.err.value) && c.log == old(c.log))
            && (a.err.None? ==>
                  var op := Cluster.ExtractProjectToComponent(compInfo, ToSlash(targetPath, sep), a.ops);
                  c.log == old(c.log) + [op] && outcome == Returned(c.Failure(op)))
  {
    var dest := Destination(targetPath, localPath, sep);
    var target := ToSlash(targetPath, sep);
    KeysListed(order, copyBytes);
    var archive, err := WriteArchive(root, localPath, dest, copyFiles, fileExists, relative, sep, excluded,
                                     copyBytes, order);
    if err.Some? {
      return Exited(err.value);
    }
    err := c.Perform(Cluster.ExtractProjectToComponent(compInfo, target, archive));
    outcome := Returned(err);
  }
}
