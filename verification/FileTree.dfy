/** The in-memory folder tree of the frontend: one mutable tree of nodes, addressed
    by paths. */
module FileTree {

  datatype Kind = Folder | File(cid: string, timestamp: string)

  class Node {
    const name: string
    const kind: Kind
    var children: map<string, Node>

    constructor (name: string, kind: Kind)
      ensures this.name == name && this.kind == kind && children == map[]
    {
      this.name, this.kind, children := name, kind, map[];
    }
  }

  /** The parts of a path: split at slashes, empty parts dropped. */
  function Split(path: string): (parts: seq<string>)
    ensures forall p :: p in parts ==> p != "" && '/' !in p
  {
    SplitOn("", path)
  }

  function SplitOn(part: string, path: string): (parts: seq<string>)
    requires '/' !in part
    ensures forall p :: p in parts ==> p != "" && '/' !in p
    decreases |path|
  {
    var flush := if part == "" then [] else [part];
    if path == "" then flush
    else if path[0] == '/' then flush + SplitOn("", path[1..])
    else SplitOn(part + [path[0]], path[1..])
  }

  function Join(parts: seq<string>): string {
    if parts == [] then "" else parts[0] + "/" + Join(parts[1..])
  }

  lemma {:induction false} SplitOnName(part: string, name: string)
    requires '/' !in part && '/' !in name
    ensures SplitOn(part, name) == if part + name == "" then [] else [part + name]
    decreases |name|
  {
    if name == "" {
      assert part + name == part;
    } else {
      assert part + [name[0]] + name[1..] == part + name;
      SplitOnName(part + [name[0]], name[1..]);
    }
  }

  lemma {:induction false} SplitOnSlash(part: string, a: string, b: string)
    requires '/' !in part
    ensures SplitOn(part, a + "/" + b) == SplitOn(part, a) + Split(b)
    decreases |a|
  {
    var s := a + "/" + b;
    if a == "" {
      assert s == "/" + b && s[1..] == b;
    } else {
      assert s[0] == a[0] && s[1..] == a[1..] + "/" + b;
      if a[0] == '/' {
        SplitOnSlash("", a[1..], b);
      } else {
        SplitOnSlash(part + [a[0]], a[1..], b);
      }
    }
  }

  /** A path without a slash is a single name, the last one included, or none. */
  lemma SplitName(name: string)
    requires '/' !in name
    ensures Split(name) == if name == "" then [] else [name]
  {
    SplitOnName("", name);
    assert "" + name == name;
  }

  /** A slash separates two paths, whatever they look like. */
  lemma SplitSlash(a: string, b: string)
    ensures Split(a + "/" + b) == Split(a) + Split(b)
  {
    SplitOnSlash("", a, b);
  }

  /** These two laws leave no choice: whatever splits by them splits like this. */
  lemma {:induction false} SplitUnique(split: string -> seq<string>, path: string)
    requires forall name: string :: '/' !in name ==> split(name) == if name == "" then [] else [name]
    requires forall a: string, b: string :: split(a + "/" + b) == split(a) + split(b)
    ensures Split(path) == split(path)
    decreases |path|
  {
    if '/' in path {
      var i :| 0 <= i < |path| && path[i] == '/';
      var a, b := path[..i], path[i + 1..];
      assert path == a + "/" + b;
      SplitUnique(split, a);
      SplitUnique(split, b);
      SplitSlash(a, b);
    } else {
      SplitName(path);
    }
  }

  /** Any list of proper names is the path of some string. */
  lemma {:induction false} SplitJoin(parts: seq<string>)
    requires forall p :: p in parts ==> p != "" && '/' !in p
    ensures Split(Join(parts)) == parts
  {
    if parts != [] {
      assert parts[0] in parts;
      forall p | p in parts[1..] ensures p in parts {
      }
      SplitJoin(parts[1..]);
      SplitSlash(parts[0], Join(parts[1..]));
      SplitName(parts[0]);
      assert parts == [parts[0]] + parts[1..];
    }
  }

  type Path = seq<string>

  lemma AppendEq(p: Path, n: string, q: Path, m: string)
    ensures p + [n] == q + [m] <==> p == q && n == m
  {
    if p + [n] == q + [m] {
      assert (p + [n])[..|p|] == p && (q + [m])[..|q|] == q && (p + [n])[|p|] == n && (q + [m])[|q|] == m;
    }
  }

  lemma PrefixAppend(q: Path, p: Path, n: string)
    ensures q <= p + [n] <==> q <= p || q == p + [n]
  {
  }

  class FileSystem {
    const root: Node
    ghost var paths: map<Path, Node>  // every path of the tree and the node it leads to

    constructor ()
      ensures Valid() && fresh(root) && View() == map[[] := Folder]
    {
      root := new Node("root", Folder);
      new;
      paths := map[[] := root];
    }

    ghost function Nodes(): set<Node>
      reads this
    {
      set p | p in paths :: paths[p]
    }

    /** The path `up + [name]` is a child of the folder at `up`. */
    ghost predicate IsChild(up: Path, name: string)
      requires up + [name] in paths
      reads this, Nodes()
    {
      && up in paths && paths[up].kind.Folder? && name in paths[up].children
      && paths[up].children[name] == paths[up + [name]] && paths[up + [name]].name == name
    }

    /** `paths` is the tree below the root, and no node is reached in two ways. */
    ghost predicate Valid()
      reads this, Nodes()
    {
      && [] in paths && paths[[]] == root && root.kind.Folder?
      && (forall p, q :: p in paths && q in paths && paths[p] == paths[q] ==> p == q)
      && (forall p, name :: p in paths && paths[p].kind.Folder? && name in paths[p].children ==>
            p + [name] in paths && paths[p + [name]] == paths[p].children[name])
      && (forall up, name :: up + [name] in paths ==> IsChild(up, name))
    }

    /** The tree as a value: which paths exist and what they are. */
    ghost function View(): map<Path, Kind>
      reads this
    {
      map p | p in paths :: paths[p].kind
    }

    /** Creates the missing folders along the path, or throws when the path runs
        through a file, in which case nothing has changed. */
    method AddFolder(path: string) returns (ok: bool)
      requires Valid()
      modifies this`paths, Nodes()
      ensures Valid() && fresh(Nodes() - old(Nodes()))
      ensures ok <==> forall j :: 0 <= j <= |Split(path)| && Split(path)[..j] in old(View()) ==>
        old(View())[Split(path)[..j]].Folder?
      ensures !ok ==> View() == old(View())
      ensures ok ==> forall p :: p in View() <==> p in old(View()) || p <= Split(path)
      ensures ok ==> forall p :: p in View() ==> View()[p] == if p in old(View()) then old(View())[p] else Folder
    {
      hide Valid, Split;
      var parts := Split(path);
      var current := root;
      RootPath();
      var i := 0;
      while i < |parts|
        invariant 0 <= i <= |parts| && Valid() && fresh(Nodes() - old(Nodes()))
        invariant parts[..i] in paths && paths[parts[..i]] == current && current.kind.Folder?
        invariant forall p :: p in old(paths) ==> p in paths && paths[p] == old(paths[p])
        invariant forall p :: p in paths && p !in old(paths) ==> p <= parts && |p| <= i && paths[p].kind.Folder?
        invariant if parts[..i] in old(paths) then paths == old(paths) else current.children == map[]
      {
        var part := parts[i];
        assert parts[..i + 1] == parts[..i] + [part];
        if part !in current.children {
          var node := CreateFolder(parts[..i], current, part);
        } else {
          ChildPath(parts[..i], part);
          if !current.children[part].kind.Folder? {
            assert parts[..i + 1] in old(View()) && !old(View())[parts[..i + 1]].Folder?;
            return false;
          }
        }
        current := current.children[part];
        i := i + 1;
      }
      assert parts[..i] == parts;
      PrefixesExist(parts);
      forall p: Path | p <= parts ensures p in paths {
        assert p == parts[..|p|];
      }
      return true;
    }

    lemma RootPath()
      requires Valid()
      ensures [] in paths && paths[[]] == root && root.kind.Folder?
    {
    }

    lemma ChildPath(up: Path, name: string)
      requires Valid() && up in paths && paths[up].kind.Folder? && name in paths[up].children
      ensures up + [name] in paths && paths[up + [name]] == paths[up].children[name]
    {
    }

    /** A path below a folder is a child of that folder. */
    lemma ParentPath(up: Path, name: string)
      requires Valid() && up + [name] in paths
      ensures up in paths && paths[up].kind.Folder? && name in paths[up].children
      ensures paths[up].children[name] == paths[up + [name]] && paths[up + [name]].name == name
    {
      assert IsChild(up, name);
    }

    /** All prefixes of a path exist, and the proper ones are folders. */
    lemma {:induction false} PrefixesExist(p: Path)
      requires Valid() && p in paths
      ensures forall j :: 0 <= j <= |p| ==> p[..j] in paths
      ensures forall j :: 0 <= j < |p| ==> paths[p[..j]].kind.Folder?
      decreases |p|
    {
      if p == [] {
        assert p[..0] == [];
      } else {
        var up, name := p[..|p| - 1], p[|p| - 1];
        assert p == up + [name];
        ParentPath(up, name);
        PrefixesExist(up);
        forall j | 0 <= j <= |p| ensures p[..j] in paths && (j < |p| ==> paths[p[..j]].kind.Folder?) {
          if j < |p| {
            assert p[..j] == up[..j];
            assert j == |up| ==> up[..j] == up;
          } else {
            assert p[..j] == p;
          }
        }
      }
    }

    /** Creates a folder under a free name of a folder. */
    method CreateFolder(up: Path, folder: Node, name: string) returns (node: Node)
      requires Valid() && up in paths && paths[up] == folder && folder.kind.Folder? && name !in folder.children
      modifies this`paths, folder
      ensures Valid() && fresh(node) && paths == old(paths)[up + [name] := node] && up + [name] !in old(paths)
      ensures folder.children == old(folder.children)[name := node]
      ensures node.kind.Folder? && node.children == map[]
    {
      node := new Node(name, Folder);
      folder.children := folder.children[name := node];
      paths := paths[up + [name] := node];
      forall u, n | u + [n] in paths ensures IsChild(u, n) {
        AppendEq(u, n, up, name);
      }
      forall p, n | p in paths && paths[p].kind.Folder? && n in paths[p].children
        ensures p + [n] in paths && paths[p + [n]] == paths[p].children[n]
      {
        AppendEq(p, n, up, name);
      }
    }

    /** Walks to the folder at the path; fails when some part is missing or a file. */
    method Find(path: string) returns (folder: Node, ok: bool)
      requires Valid()
      ensures ok <==> forall j :: 0 <= j <= |Split(path)| ==>
        Split(path)[..j] in paths && paths[Split(path)[..j]].kind.Folder?
      ensures ok ==> Split(path) in paths && folder == paths[Split(path)] && folder.kind.Folder?
    {
      hide Valid, Split;
      var parts := Split(path);
      folder := root;
      RootPath();
      var i := 0;
      while i < |parts|
        invariant 0 <= i <= |parts| && Valid()
        invariant parts[..i] in paths && paths[parts[..i]] == folder && folder.kind.Folder?
      {
        var part := parts[i];
        assert parts[..i + 1] == parts[..i] + [part];
        if parts[..i + 1] in paths {
          ParentPath(parts[..i], part);
        }
        if part !in folder.children {
          return folder, false;
        }
        ChildPath(parts[..i], part);
        if !folder.children[part].kind.Folder? {
          return folder, false;
        }
        folder := folder.children[part];
        i := i + 1;
      }
      assert parts[..i] == parts;
      PrefixesExist(parts);
      return folder, true;
    }

    /** Puts a file into the folder at the path, or throws when that folder does
        not exist. The file replaces whatever had its name, with everything below
        it; every other path is as before. */
    method AddFile(path: string, filename: string, cid: string, timestamp: string) returns (ok: bool)
      requires Valid()
      modifies this`paths, Nodes()
      ensures Valid()
      ensures ok <==> forall j :: 0 <= j <= |Split(path)| ==>
        Split(path)[..j] in old(View()) && old(View())[Split(path)[..j]].Folder?
      ensures !ok ==> View() == old(View())
      ensures ok ==> Split(path) + [filename] in View() && View()[Split(path) + [filename]] == File(cid, timestamp)
      ensures ok ==> forall p: Path :: Split(path) + [filename] < p ==> p !in View()
      ensures ok ==> forall p: Path :: !(Split(path) + [filename] <= p) ==>
        (p in View() <==> p in old(View())) && (p in View() ==> View()[p] == old(View())[p])
    {
      hide Valid, Split;
      var folder;
      folder, ok := Find(path);
      if !ok {
        return;
      }
      var node := new Node(filename, File(cid, timestamp));
      Overwrite(Split(path), folder, filename, node);
    }

    /** Puts a new file under a name of a folder, dropping what had that name. */
    method Overwrite(up: Path, folder: Node, name: string, node: Node)
      requires Valid() && up in paths && paths[up] == folder && folder.kind.Folder?
      requires node !in Nodes() && node.children == map[] && node.name == name && node.kind.File?
      modifies this`paths, folder
      ensures Valid()
      ensures paths == (map p | p in old(paths) && !(up + [name] <= p) :: old(paths)[p])[up + [name] := node]
    {
      folder.children := folder.children[name := node];
      ghost var q := up + [name];
      paths := (map p | p in paths && !(q <= p) :: paths[p])[q := node];
      forall u, n | u + [n] in paths ensures IsChild(u, n) {
        AppendEq(u, n, up, name);
        PrefixAppend(q, u, n);
        assert q != u + [n] ==> paths[u + [n]] == old(paths[u + [n]]);
      }
      forall p, n | p in paths && paths[p].kind.Folder? && n in paths[p].children
        ensures p + [n] in paths && paths[p + [n]] == paths[p].children[n]
      {
        AppendEq(p, n, up, name);
        PrefixAppend(q, p, n);
      }
    }

    /** The nodes directly below the folder at the path. */
    method ListFolderContents(path: string) returns (contents: set<Node>, ok: bool)
      requires Valid()
      ensures ok <==> forall j :: 0 <= j <= |Split(path)| ==>
        Split(path)[..j] in paths && paths[Split(path)[..j]].kind.Folder?
      ensures ok ==>
        forall n :: n in contents <==> Split(path) + [n.name] in paths && paths[Split(path) + [n.name]] == n
    {
      var folder;
      folder, ok := Find(path);
      if !ok {
        return {}, false;
      }
      contents := folder.children.Values;
      ghost var parts := Split(path);
      forall n ensures n in contents <==> parts + [n.name] in paths && paths[parts + [n.name]] == n {
        if n in contents {
          var name :| name in folder.children && folder.children[name] == n;
          ChildPath(parts, name);
          ParentPath(parts, name);
        }
        if parts + [n.name] in paths && paths[parts + [n.name]] == n {
          ParentPath(parts, n.name);
        }
      }
    }

    /** A file that was added is listed in its folder, under its name, with what
        was given for it. */
    method AddThenList(path: string, filename: string, cid: string, timestamp: string)
      returns (contents: set<Node>, ok: bool)
      requires Valid()
      modifies this`paths, Nodes()
      ensures ok <==> forall j :: 0 <= j <= |Split(path)| ==>
        Split(path)[..j] in old(View()) && old(View())[Split(path)[..j]].Folder?
      ensures ok ==> exists n :: n in contents && n.name == filename && n.kind == File(cid, timestamp)
    {
      ok := AddFile(path, filename, cid, timestamp);
      if !ok {
        return {}, false;
      }
      hide Valid, Split;
      ghost var file := Split(path) + [filename];
      PrefixesExist(file);
      forall j | 0 <= j <= |Split(path)| ensures Split(path)[..j] in paths && paths[Split(path)[..j]].kind.Folder? {
        assert file[..j] == Split(path)[..j];
      }
      ParentPath(Split(path), filename);
      contents, ok := ListFolderContents(path);
      assert paths[file] in contents;
    }
  }
}
