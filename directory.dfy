/** A directory of the evictor-based file system: a table of the nodes it
    holds, by name, and a flag that records that it was destroyed. Every
    operation on a destroyed directory fails as if the object no longer
    existed. Proxies are modelled by the identity they denote; the UUID a
    new node gets is passed in. */
module Filesystem {
  import opened Wrappers

  datatype NodeType = DirType | FileType

  /** The identity of a servant, which is all a proxy carries here. */
  datatype Identity = Identity(id: string)

  /** A directory entry: the node's name, its type and its proxy. */
  datatype NodeDesc = NodeDesc(name: string, nodeType: NodeType, proxy: Identity)

  /** The exceptions the directory raises. */
  datatype FsError =
    | ObjectNotExist
    | PermissionDenied(reason: string)
    | NoSuchName(name: string)
    | NameInUse(name: string)

  const RootReason: string := "Cannot destroy root directory"
  const NonEmptyReason: string := "Cannot destroy non-empty directory"

  class Directory {
    /** The directory's own name, and the proxy of its parent (None for the
        root directory). */
    var nodeName: string
    var parent: Option<Identity>
    /** The nodes of the directory, by name. */
    var nodes: map<string, NodeDesc>
    var destroyed: bool

    /** Every entry is keyed by its own, non-empty, name: the only entries
        the operations below ever add. */
    ghost predicate Valid()
      reads this
    {
      forall k :: k in nodes ==> nodes[k].name == k && k != ""
    }

    /** A new directory is not destroyed and holds no nodes. */
    constructor()
      ensures Valid()
      ensures !destroyed && nodes == map[]
      ensures nodeName == "" && parent == None
    {
      nodeName := "";
      parent := None;
      destroyed := false;
      nodes := map[];
    }

    /** The directory's name. */
    method Name() returns (r: Result<string, FsError>)
      ensures destroyed ==> r == Failure(ObjectNotExist)
      ensures !destroyed ==> r == Success(nodeName)
    {
      if destroyed {
        return Failure(ObjectNotExist);
      }
      return Success(nodeName);
    }

    /** Destroys the directory: the root and a non-empty directory may not
        be destroyed, and a destroyed one no longer exists. On success the
        directory is marked destroyed and its parent, `parentDir`, drops
        its entry. */
    method Destroy(parentDir: Directory) returns (r: Outcome<FsError>)
      requires Valid() && parentDir.Valid() && parentDir != this
      requires parent.Some? && !destroyed && nodes == map[] ==> nodeName in parentDir.nodes
      modifies this`destroyed, parentDir`nodes
      ensures Valid() && parentDir.Valid()
      ensures parent == None ==> r == Fail(PermissionDenied(RootReason))
      ensures parent != None && old(destroyed) ==> r == Fail(ObjectNotExist)
      ensures parent != None && !old(destroyed) && nodes != map[] ==> r == Fail(PermissionDenied(NonEmptyReason))
      ensures parent != None && !old(destroyed) && nodes == map[] ==> r == Pass
      ensures r.Fail? ==> destroyed == old(destroyed) && parentDir.nodes == old(parentDir.nodes)
      ensures r.Pass? ==> destroyed && parentDir.nodes == old(parentDir.nodes) - {nodeName}
    {
      if parent == None {
        return Fail(PermissionDenied(RootReason));
      }
      if destroyed {
        return Fail(ObjectNotExist);
      }
      if nodes != map[] {
        return Fail(PermissionDenied(NonEmptyReason));
      }
      destroyed := true;
      parentDir.RemoveNode(nodeName);
      return Pass;
    }

    /** The nodes of the directory, in the map's iteration order: one entry
        per node, each node once. */
    method List() returns (r: Result<array<NodeDesc>, FsError>)
      requires Valid()
      ensures destroyed ==> r == Failure(ObjectNotExist)
      ensures !destroyed ==> r.Success? && fresh(r.value) && r.value.Length == |nodes|
      ensures r.Success? ==>
        (forall j :: 0 <= j < r.value.Length ==> r.value[j] in nodes.Values) &&
        (forall k :: k in nodes ==> nodes[k] in r.value[..]) &&
        (forall i, j :: 0 <= i < j < r.value.Length ==> r.value[i] != r.value[j])
    {
      if destroyed {
        return Failure(ObjectNotExist);
      }
      var result, listed := CopyNodes();
      forall k | k in nodes
        ensures nodes[k] in result[..]
      {
        var j :| 0 <= j < |listed| && listed[j] == k;
        assert result[j] == nodes[k];
      }
      forall i, j | 0 <= i < j < result.Length
        ensures result[i] != result[j]
      {
        assert result[i].name == listed[i] && result[j].name == listed[j];
      }
      return Success(result);
    }

    /** The loop of `list`: copies the table's entries into a fresh array,
        key by key; `listed` records the key copied to each position. */
    method CopyNodes() returns (result: array<NodeDesc>, ghost listed: seq<string>)
      ensures fresh(result) && result.Length == |nodes| == |listed|
      ensures forall j :: 0 <= j < |listed| ==> listed[j] in nodes && result[j] == nodes[listed[j]]
      ensures forall k :: k in nodes ==> k in listed
      ensures forall a, b :: 0 <= a < b < |listed| ==> listed[a] != listed[b]
    {
      result := new NodeDesc[|nodes|](_ => NodeDesc("", DirType, Identity("")));
      var i := 0;
      var rest := nodes.Keys;
      listed := [];
      while rest != {}
        invariant rest <= nodes.Keys && i + |rest| == |nodes| && |listed| == i
        invariant forall j :: 0 <= j < i ==> listed[j] in nodes && listed[j] !in rest && result[j] == nodes[listed[j]]
        invariant forall k :: k in nodes && k !in rest ==> k in listed
        invariant forall a, b :: 0 <= a < b < i ==> listed[a] != listed[b]
        decreases |rest|
      {
        var k :| k in rest;
        result[i] := nodes[k];
        listed := listed + [k];
        rest := rest - {k};
        i := i + 1;
      }
    }

    /** The entry of the node with the given name. */
    method Find(name: string) returns (r: Result<NodeDesc, FsError>)
      ensures destroyed ==> r == Failure(ObjectNotExist)
      ensures !destroyed && name !in nodes ==> r == Failure(NoSuchName(name))
      ensures !destroyed && name in nodes ==> r == Success(nodes[name])
    {
      if destroyed {
        return Failure(ObjectNotExist);
      }
      if name !in nodes {
        return Failure(NoSuchName(name));
      }
      return Success(nodes[name]);
    }

    /** Adds a node of the given type under a new, non-empty name; `id` is
        the identity of the new node's servant. */
    method AddNode(name: string, nodeType: NodeType, id: Identity) returns (r: Result<Identity, FsError>)
      requires Valid()
      modifies this`nodes
      ensures Valid()
      ensures destroyed ==> r == Failure(ObjectNotExist)
      ensures !destroyed && (name == "" || name in old(nodes)) ==> r == Failure(NameInUse(name))
      ensures r.Failure? ==> nodes == old(nodes)
      ensures !destroyed && name != "" && name !in old(nodes) ==>
        r == Success(id) && nodes == old(nodes)[name := NodeDesc(name, nodeType, id)]
    {
      if destroyed {
        return Failure(ObjectNotExist);
      }
      if |name| == 0 || name in nodes {
        return Failure(NameInUse(name));
      }
      nodes := nodes[name := NodeDesc(name, nodeType, id)];
      return Success(id);
    }

    /** Creates a subdirectory; `id` is the identity of its servant. */
    method CreateDirectory(name: string, id: Identity) returns (r: Result<Identity, FsError>)
      requires Valid()
      modifies this`nodes
      ensures Valid()
      ensures destroyed ==> r == Failure(ObjectNotExist)
      ensures !destroyed && (name == "" || name in old(nodes)) ==> r == Failure(NameInUse(name))
      ensures r.Failure? ==> nodes == old(nodes)
      ensures !destroyed && name != "" && name !in old(nodes) ==>
        r == Success(id) && nodes == old(nodes)[name := NodeDesc(name, DirType, id)]
    {
      r := AddNode(name, DirType, id);
    }

    /** Creates a file; `id` is the identity of its servant. */
    method CreateFile(name: string, id: Identity) returns (r: Result<Identity, FsError>)
      requires Valid()
      modifies this`nodes
      ensures Valid()
      ensures destroyed ==> r == Failure(ObjectNotExist)
      ensures !destroyed && (name == "" || name in old(nodes)) ==> r == Failure(NameInUse(name))
      ensures r.Failure? ==> nodes == old(nodes)
      ensures !destroyed && name != "" && name !in old(nodes) ==>
        r == Success(id) && nodes == old(nodes)[name := NodeDesc(name, FileType, id)]
    {
      r := AddNode(name, FileType, id);
    }

    /** Drops the entry of a node that is being destroyed. */
    method RemoveNode(name: string)
      requires Valid() && name in nodes
      modifies this`nodes
      ensures Valid()
      ensures nodes == old(nodes) - {name}
    {
      nodes := nodes - {name};
    }
  }

  /** Destroying a directory twice: the first call removes it from its
      parent, and the second is refused because the object no longer
      exists, without touching the parent. */
  method DestroyTwice(d: Directory, parentDir: Directory) returns (first: Outcome<FsError>, second: Outcome<FsError>)
    requires d.Valid() && parentDir.Valid() && parentDir != d
    requires d.parent.Some? && !d.destroyed && d.nodes == map[] && d.nodeName in parentDir.nodes
    modifies d`destroyed, parentDir`nodes
    ensures first == Pass && second == Fail(ObjectNotExist)
    ensures d.destroyed && parentDir.nodes == old(parentDir.nodes) - {d.nodeName}
  {
    first := d.Destroy(parentDir);
    second := d.Destroy(parentDir);
  }

  /** A node created in a live directory is found there under its name,
      and removing it again restores the directory's table. */
  method CreateFindRemove(d: Directory, name: string, nodeType: NodeType, id: Identity)
    returns (found: Result<NodeDesc, FsError>)
    requires d.Valid() && !d.destroyed && name != "" && name !in d.nodes
    modifies d`nodes
    ensures found == Success(NodeDesc(name, nodeType, id))
    ensures d.Valid() && d.nodes == old(d.nodes)
  {
    var created := d.AddNode(name, nodeType, id);
    found := d.Find(name);
    d.RemoveNode(name);
    assert d.nodes == old(d.nodes);
  }
}
