/** The MAEC report (modules/reporting/maec5.py): the table of cyber-observable objects with its ids,
    and everything in the package that refers into it. */
module Maec {
  import opened Wrappers
  import opened Strings
  import opened MaecObjects

  // ---- the analysis results and the package

  datatype FileData = FileData(name: string, hashes: Value, size: Value, mime: Option<Value>,
                               path: Option<string>, scans: Option<Value>)

  datatype Mapping = Mapping(input: Option<ObjectMapping>, output: Option<ObjectMapping>)

  datatype Call = Call(api: string, args: map<string, string>)

  datatype Process = Process(pid: string, parent: string, pidField: Option<string>, name: Option<string>,
                             commandLine: Option<string>, created: Option<string>, calls: seq<Call>)

  datatype Target = File(data: FileData, scans: Option<Value>) | Url(url: string) | Other

  datatype Results = Results(target: Target, version: string, vm: Option<string>,
                             dropped: seq<FileData>, processes: seq<Process>)

  datatype Instance = Instance(id: nat, objects: seq<string>)

  datatype Action = Action(id: nat, inputs: Option<seq<string>>, outputs: Option<seq<string>>)

  datatype Metadata = Metadata(tools: seq<string>, vm: Option<string>)

  datatype Node = Node(process: string, actions: seq<nat>, root: bool)

  datatype Relationship = Relationship(source: nat, target: nat)

  // ---- the table

  predicate Issued(id: string, index: nat) {
    exists k: nat :: k < index && id == Str(k)
  }

  /** A stored object still has everything it was stored with, except that its child_refs may be set. */
  ghost predicate Kept(o: Obj, stored: Obj) {
    forall k :: k in o && k != "child_refs" ==> k in stored && stored[k] == o[k]
  }

  ghost predicate AllIssued(index: nat, objects: map<string, Obj>) {
    forall id :: id in objects ==> Issued(id, index)
  }

  ghost predicate AllKept(objects: map<string, Obj>, table: Table) {
    forall o :: o in table ==> table[o] in objects && Kept(o, objects[table[o]])
  }

  /** Different objects have different ids. */
  ghost predicate Injective(table: Table) {
    forall o, o' :: o in table && o' in table && table[o] == table[o'] ==> o == o'
  }

  /** Every reference in a stored object is the id of a stored object. */
  ghost predicate Closed(objects: map<string, Obj>) {
    forall id :: id in objects ==> RefsIn(objects[id], objects.Keys)
  }

  ghost predicate AllSortable(table: Table) {
    forall o :: o in table ==> Sortable(o)
  }

  ghost predicate TableOk(index: nat, objects: map<string, Obj>, table: Table) {
    AllIssued(index, objects) && AllKept(objects, table) && Injective(table) && Closed(objects)
  }

  /** Nothing stored is lost or changed, and whatever is new has an id never issued before. */
  ghost predicate Grown(index: nat, objects: map<string, Obj>, table: Table,
                        index': nat, objects': map<string, Obj>, table': Table) {
    && index <= index'
    && (forall id :: id in objects ==> id in objects' && objects'[id] == objects[id])
    && (forall o :: o in table ==> o in table' && table'[o] == table[o])
    && (forall id :: id in objects' && id !in objects ==> !Issued(id, index))
    && (forall o :: o in table' && o !in table ==> table'[o] in objects' && objects'[table'[o]] == o)
  }

  lemma {:induction false} NotIssued(i: nat)
    ensures !Issued(Str(i), i) && Issued(Str(i), i + 1)
  {
    if Issued(Str(i), i) {
      var k: nat :| k < i && Str(i) == Str(k);
      StrInjective(i, k);
    }
  }

  lemma {:induction false} RefsMore(o: Obj, ids: set<string>, ids': set<string>)
    requires RefsIn(o, ids) && ids <= ids'
    ensures RefsIn(o, ids')
  {}

  lemma {:induction false} GrownTwice(i: nat, os: map<string, Obj>, t: Table, i': nat, os': map<string, Obj>, t': Table,
                   i'': nat, os'': map<string, Obj>, t'': Table)
    requires Grown(i, os, t, i', os', t') && Grown(i', os', t', i'', os'', t'')
    ensures Grown(i, os, t, i'', os'', t'')
  {}

  lemma {:induction false} MoreIssued(i: nat, j: nat, os: map<string, Obj>, o: Obj)
    requires AllIssued(i, os) && i < j
    ensures AllIssued(j, os[Str(i) := o]) && AllIssued(j, os)
  {}

  lemma {:induction false} MoreClosed(os: map<string, Obj>, id: string, o: Obj)
    requires Closed(os) && RefsIn(o, os.Keys) && id !in os
    ensures Closed(os[id := o])
  {}

  lemma {:induction false} MoreKept(os: map<string, Obj>, t: Table, id: string, o: Obj)
    requires AllKept(os, t) && Injective(t) && id !in os && o !in t
    ensures AllKept(os[id := o], t[o := id]) && AllKept(os[id := o], t) && Injective(t[o := id])
  {}

  lemma {:induction false} UnlistedKept(os: map<string, Obj>, t: Table, id: string, o: Obj)
    requires AllKept(os, t) && id !in os
    ensures AllKept(os[id := o], t)
  {}

  lemma {:induction false} NewId(i: nat, os: map<string, Obj>)
    requires AllIssued(i, os)
    ensures Str(i) !in os
  {
    NotIssued(i);
  }

  lemma {:induction false} MoreGrown(i: nat, os: map<string, Obj>, t: Table, o: Obj)
    requires Str(i) !in os
    ensures Grown(i, os, t, i + 1, os[Str(i) := o], t)
    ensures o !in t ==> Grown(i, os, t, i + 1, os[Str(i) := o], t[o := Str(i)])
  {
    NotIssued(i);
    hide Issued, Str;
  }

  /** Issuing an id and storing an object under it, with an entry in the table. */
  lemma {:induction false} StoredListed(i: nat, os: map<string, Obj>, t: Table, o: Obj)
    requires TableOk(i, os, t) && RefsIn(o, os.Keys) && o !in t
    ensures Str(i) !in os && TableOk(i + 1, os[Str(i) := o], t[o := Str(i)])
    ensures Grown(i, os, t, i + 1, os[Str(i) := o], t[o := Str(i)])
  {
    hide *;
    TableParts(i, os, t);
    NewId(i, os);
    MoreIssued(i, i + 1, os, o);
    MoreClosed(os, Str(i), o);
    MoreKept(os, t, Str(i), o);
    MoreGrown(i, os, t, o);
    TableParts(i + 1, os[Str(i) := o], t[o := Str(i)]);
  }

  /** The same without an entry in the table. */
  lemma {:induction false} StoredUnlisted(i: nat, os: map<string, Obj>, t: Table, o: Obj)
    requires TableOk(i, os, t) && RefsIn(o, os.Keys)
    ensures Str(i) !in os && TableOk(i + 1, os[Str(i) := o], t)
    ensures Grown(i, os, t, i + 1, os[Str(i) := o], t)
  {
    hide *;
    TableParts(i, os, t);
    NewId(i, os);
    MoreIssued(i, i + 1, os, o);
    MoreClosed(os, Str(i), o);
    UnlistedKept(os, t, Str(i), o);
    MoreGrown(i, os, t, o);
    TableParts(i + 1, os[Str(i) := o], t);
  }

  lemma {:induction false} TableParts(i: nat, os: map<string, Obj>, t: Table)
    ensures TableOk(i, os, t) <==> AllIssued(i, os) && AllKept(os, t) && Injective(t) && Closed(os)
  {
    hide AllIssued, AllKept, Injective, Closed;
  }

  lemma {:induction false} IdSpent(i: nat, os: map<string, Obj>, t: Table)
    requires TableOk(i, os, t)
    ensures TableOk(i + 1, os, t) && Grown(i, os, t, i + 1, os, t)
  {
    MoreIssued(i, i + 1, os, map[]);
    hide AllIssued, AllKept, Injective, Closed;
  }

  // ---- file objects

  function FileBase(d: FileData): Obj {
    var o := map["type" := Text("file"), "hashes" := d.hashes, "size" := d.size, "name" := Text(d.name)];
    if d.mime.Some? then o["mime_type" := d.mime.value] else o
  }

  function FileObj(d: FileData, t: Table): Obj {
    var o := if d.path.Some? then Filed(FileBase(d), d.path.value, t) else FileBase(d);
    if d.scans.Some? then o["extensions" := d.scans.value] else o
  }

  /** The id that a file object refers to its directory by is in the table. */
  ghost predicate FileLooked(d: FileData, t: Table) {
    d.path.Some? ==> FiledLooked(FileBase(d), d.path.value, t)
  }

  lemma {:induction false} FileStable(d: FileData, t: Table, t': Table)
    requires FileLooked(d, t) && Extends(t, t')
    ensures FileLooked(d, t') && FileObj(d, t') == FileObj(d, t)
  {
    hide Filed, FiledLooked, FileBase;
    if d.path.Some? {
      FiledStable(FileBase(d), d.path.value, t, t');
    }
  }

  /** The target's file object, with the extensions that its scan results make. */
  function PrimaryObj(d: FileData, scans: Option<Value>, t: Table): Obj {
    if scans.Some? then FileObj(d, t)["extensions" := scans.value] else FileObj(d, t)
  }

  lemma {:induction false} FileBaseRefs(d: FileData, ids: set<string>)
    ensures RefsIn(FileBase(d), ids)
  {}

  lemma {:induction false} SpentGrown(i: nat, os: map<string, Obj>, t: Table)
    ensures Grown(i, os, t, i + 1, os, t)
  {}

  /** An id issued before the table grew, and not used by then, is still not used. */
  lemma {:induction false} StillFree(i: nat, os: map<string, Obj>, t: Table, i': nat, os': map<string, Obj>, t': Table,
      id: string)
    requires Grown(i, os, t, i', os', t') && Issued(id, i) && id !in os
    ensures id !in os' && Issued(id, i')
  {}

  /** No entry of the table has this id. */
  ghost predicate Unlisted(t: Table, id: string) {
    forall o :: o in t ==> t[o] != id
  }

  lemma {:induction false} NeverListed(i: nat, os: map<string, Obj>, t: Table, id: string)
    requires TableOk(i, os, t) && id !in os
    ensures Unlisted(t, id)
  {
    hide Kept, Closed, Injective, AllIssued;
  }

  /** Changing an object that no entry of the table stands for. */
  lemma {:induction false} ChangedAt(i0: nat, os0: map<string, Obj>, t0: Table, i: nat, os: map<string, Obj>, t: Table,
      id: string, o: Obj)
    requires TableOk(i, os, t) && Grown(i0, os0, t0, i, os, t) && RefsIn(o, os.Keys)
    requires id in os && id !in os0 && Unlisted(t, id)
    ensures TableOk(i, os[id := o], t) && Grown(i0, os0, t0, i, os[id := o], t)
  {
    var os' := os[id := o];
    assert os'.Keys == os.Keys;
    assert Closed(os') by {
      forall x | x in os' ensures RefsIn(os'[x], os'.Keys) {
        if x != id { assert os'[x] == os[x]; }
      }
    }
    assert AllKept(os', t) && AllIssued(i, os');
    hide RefsIn, Issued, Closed, AllKept, Injective, AllIssued;
  }

  lemma {:induction false} StoredAt(i0: nat, os0: map<string, Obj>, t0: Table, i: nat, os: map<string, Obj>, t: Table,
      id: string, o: Obj)
    requires TableOk(i, os, t) && Grown(i0, os0, t0, i, os, t) && RefsIn(o, os.Keys)
    requires id !in os && Issued(id, i) && !Issued(id, i0)
    ensures TableOk(i, os[id := o], t) && Grown(i0, os0, t0, i, os[id := o], t)
  {
    MoreClosed(os, id, o);
    UnlistedKept(os, t, id, o);
    hide RefsIn, Issued, Closed, AllKept, Injective;
  }

  /** The whole effect of deduplicating one object. */
  predicate Deduplicated(index: nat, objects: map<string, Obj>, table: Table, o: Obj,
                         index': nat, objects': map<string, Obj>, table': Table) {
    if o in table then index' == index && objects' == objects && table' == table
    else index' == index + 1 &&
         if Sortable(o) then objects' == objects[Str(index) := o] && table' == table[o := Str(index)]
         else objects' == objects && table' == table
  }

  // ---- the report

  class MaecReport {
    const kind: string -> Kind
    var currentObjectIndex: nat
    var objects: map<string, Obj>
    var objectMap: Table
    var pidObjectMap: map<string, string>
    var pidActionMap: map<string, seq<nat>>
    var uuids: nat
    var actions: seq<Action>
    var primary: Option<Instance>
    var dropped: seq<Instance>
    var relationships: seq<Relationship>
    var metadata: Option<Metadata>
    var nodes: seq<Node>
    var maecObjects: seq<nat>

    ghost predicate Valid()
      reads this`currentObjectIndex, this`objects, this`objectMap
    {
      TableOk(currentObjectIndex, objects, objectMap) && AllSortable(objectMap)
    }

    /** An id that was never issued before. */
    method CreateObjId() returns (id: string)
      requires Valid()
      modifies this`currentObjectIndex
      ensures Valid() && id == Str(old(currentObjectIndex)) && currentObjectIndex == old(currentObjectIndex) + 1
      ensures id !in objects && !Issued(id, old(currentObjectIndex)) && Issued(id, currentObjectIndex)
    {
      IdSpent(currentObjectIndex, objects, objectMap);
      NotIssued(currentObjectIndex);
      id := Str(currentObjectIndex);
      currentObjectIndex := currentObjectIndex + 1;
    }

    /** Equal objects get the id they have, new ones a new id; an object that cannot be sorted raises
        after the id is spent. */
    method DeduplicateObj(o: Obj) returns (id: Option<string>)
      requires Valid() && RefsIn(o, objects.Keys)
      modifies this`currentObjectIndex, this`objects, this`objectMap
      ensures Valid()
      ensures Grown(old(currentObjectIndex), old(objects), old(objectMap), currentObjectIndex, objects, objectMap)
      ensures Deduplicated(old(currentObjectIndex), old(objects), old(objectMap), o,
                           currentObjectIndex, objects, objectMap)
      ensures id == (if o in objectMap then Some(objectMap[o]) else None)
      ensures o in objectMap <==> o in old(objectMap) || Sortable(o)
      ensures o in objectMap ==> objectMap[o] in objects
    {
      hide Sortable, RefsIn, Issued, Str;
      if o in objectMap {
        return Some(objectMap[o]);
      }
      StoredListed(currentObjectIndex, objects, objectMap, o);
      IdSpent(currentObjectIndex, objects, objectMap);
      var fresh' := Str(currentObjectIndex);
      currentObjectIndex := currentObjectIndex + 1;
      if !Sortable(o) {
        return None;
      }
      objects := objects[fresh' := o];
      objectMap := objectMap[o := fresh'];
      id := Some(fresh');
    }

    /** The table has only grown since the method began. */
    twostate predicate Grew()
      reads this`currentObjectIndex, this`objects, this`objectMap
    {
      Grown(old(currentObjectIndex), old(objects), old(objectMap), currentObjectIndex, objects, objectMap)
    }

    /** Splits the directory off a file's path and stores it; a path that is only a directory turns
        the object into a directory. */
    method CreateDirectoryFromFilePath(o: Obj, path: string) returns (r: Obj)
      requires Valid() && RefsIn(o, objects.Keys)
      modifies this`currentObjectIndex, this`objects, this`objectMap
      ensures Valid() && Grew()
      ensures r == Filed(o, path, objectMap) && RefsIn(r, objects.Keys)
      ensures NamesFile(o, path) && HasDirectory(path) ==> ParentDirectory(path) in objectMap
    {
      hide RefsIn, Sortable, TableOk, Grown, NotAName, LastPart, StripEnd, Issued, Deduplicated, Str;
      GrownSame(currentObjectIndex, objects, objectMap);
      var fileName := LastPart(path);
      if fileName != "" || !("name" in o && o["name"] == Text(path)) {
        var dir := DirectoryObj(StripEnd(path, fileName));
        r := o;
        if "name" !in r || NotAName(r["name"]) {
          r := r["name" := Text(fileName)];
          RefsPlain(o, "name", Text(fileName), objects.Keys);
        }
        if dir["path"] != Text("") {
          DirectoryPlain(StripEnd(path, fileName));
          ghost var ids := objects.Keys;
          RefsMore(dir, {}, ids);
          var id := DeduplicateObj(dir);
          GrownKeys(old(currentObjectIndex), old(objects), old(objectMap), currentObjectIndex, objects, objectMap);
          RefsMore(r, ids, objects.Keys);
          RefsSet(r, "parent_directory_ref", id.value, objects.Keys);
          r := r["parent_directory_ref" := Text(id.value)];
        }
      } else {
        var dir := DirectoryObj(path);
        RefsDirectory(o, dir["path"], objects.Keys);
        r := (o - {"name"})["type" := Text("directory")]["path" := dir["path"]];
      }
    }

    /** A file object and an id for it, which is not stored yet. */
    method CreateFileObj(d: FileData) returns (id: string, o: Obj)
      requires Valid()
      modifies this`currentObjectIndex, this`objects, this`objectMap
      ensures Valid() && Grew()
      ensures id == Str(old(currentObjectIndex)) && id !in objects && Issued(id, currentObjectIndex)
      ensures o == FileObj(d, objectMap) && FileLooked(d, objectMap) && RefsIn(o, objects.Keys)
    {
      hide Grown, TableOk, Filed, RefsIn, Issued, Str;
      ghost var i0, os, t := currentObjectIndex, objects, objectMap;
      id := CreateObjId();
      ghost var i1 := currentObjectIndex;
      SpentGrown(i0, os, t);
      NotIssued(i0);
      FileBaseRefs(d, objects.Keys);
      o := FileBase(d);
      if d.path.Some? {
        o := CreateDirectoryFromFilePath(o, d.path.value);
        FiledLookedIf(FileBase(d), d.path.value, objectMap);
        GrownTwice(i0, os, t, i1, os, t, currentObjectIndex, objects, objectMap);
        StillFree(i1, os, t, currentObjectIndex, objects, objectMap, id);
      }
      if d.scans.Some? {
        RefsPlain(o, "extensions", d.scans.value, objects.Keys);
        o := o["extensions" := d.scans.value];
      }
    }

    /** A malware instance and its file object, stored under an id of its own. */
    method CreateMalwareInstance(d: FileData) returns (instance: Instance)
      requires Valid()
      modifies this`currentObjectIndex, this`objects, this`objectMap, this`uuids
      ensures Valid() && Grew() && uuids == old(uuids) + 1
      ensures instance == Instance(old(uuids), [Str(old(currentObjectIndex))])
      ensures Str(old(currentObjectIndex)) in objects
      ensures objects[Str(old(currentObjectIndex))] == FileObj(d, objectMap) && FileLooked(d, objectMap)
      ensures Str(old(currentObjectIndex)) !in old(objects) && Unlisted(objectMap, Str(old(currentObjectIndex)))
    {
      hide Grown, TableOk, FileObj, FileLooked, RefsIn, Issued, Str, AllSortable;
      ghost var i0, os, t := currentObjectIndex, objects, objectMap;
      TableParts(i0, os, t);
      NewId(i0, os);
      var id, o := CreateFileObj(d);
      NeverListed(currentObjectIndex, objects, objectMap, id);
      NotIssued(i0);
      StoredAt(i0, os, t, currentObjectIndex, objects, objectMap, id, o);
      objects := objects[id := o];
      instance := Instance(uuids, [id]);
      uuids := uuids + 1;
    }

    /** The host, address or domain an address names is stored; the traffic object gains what the
        address tells about it. None where it raises. */
    method CreateNetworkObj(value: string, o: Obj) returns (r: Option<(string, Obj)>)
      requires Valid()
      modifies this`currentObjectIndex, this`objects, this`objectMap
      ensures Valid() && Grew()
      ensures match Addressed(value, kind)
        case None => r.None?
        case Some((host, resource)) =>
          (match WithHttp(WithProtocols(o, value, kind), resource, host["value"])
           case None => r.None?
           case Some(o') => host in objectMap && objectMap[host] in objects && r == Some((objectMap[host], o')))
    {
      hide Grown, TableOk, RefsIn, Issued, Str, WithHttp, BeforeSlash, AfterSlash, Remove, Deduplicated, Sortable;
      GrownSame(currentObjectIndex, objects, objectMap);
      var o' := o;
      var host, type', resource := value, "domain-name", "";
      if StartsWith(value, "http://") {
        var rest := Remove(value, "http://");
        host := BeforeSlash(rest);
        if AfterSlash(rest).None? { return None; }
        resource := AfterSlash(rest).value;
      } else if StartsWith(value, "ftp://") {
        host := BeforeSlash(Remove(value, "ftp://"));
      } else if StartsWith(value, "https://") {
        var rest := Remove(value, "htps://");
        host := BeforeSlash(rest);
        if AfterSlash(rest).None? { return None; }
        resource := AfterSlash(rest).value;
      } else {
        match kind(value) {
          case Ipv6 =>
            type' := "ipv6-addr";
            o' := o'["protocols" := List([Text("ipv6"), Text("tcp")])];
          case Mac =>
            type' := "mac-addr";
          case Ipv4 =>
            type' := "ipv4-addr";
            o' := o'["protocols" := List([Text("ipv4"), Text("tcp")])];
          case Domain =>
        }
      }
      var network := map["value" := Text(host), "type" := Text(type')];
      assert network == Addressed(value, kind).value.0;
      var http := WithHttp(o', resource, Text(host));
      if http.None? {
        return None;
      }
      HostPlain(host, type');
      RefsMore(network, {}, objects.Keys);
      var id := DeduplicateObj(network);
      r := Some((id.value, http.value));
    }

    /** One address property of a traffic object replaced by the id of its network object. */
    method NetworkRef(o: Obj, key: string, ghost pending: set<string>) returns (r: Option<Obj>)
      requires Valid() && (key == "dst_ref" || key == "src_ref") && RefsBut(o, objects.Keys, pending + {key})
      modifies this`currentObjectIndex, this`objects, this`objectMap
      ensures Valid() && Grew()
      ensures r == NetRef(o, key, objectMap, kind) && NetLooked(o, key, objectMap, kind)
      ensures r.Some? ==> RefsBut(r.value, objects.Keys, pending)
    {
      hide Grown, TableOk, WithHttp, Addressed, RefsBut, WithProtocols;
      GrownSame(currentObjectIndex, objects, objectMap);
      if key !in o {
        RefsButAbsent(o, objects.Keys, pending, key);
        return Some(o);
      }
      if !o[key].Text? {
        return None;
      }
      ghost var ids := objects.Keys;
      var host := CreateNetworkObj(o[key].s, o);
      if host.None? {
        return None;
      }
      GrownKeys(old(currentObjectIndex), old(objects), old(objectMap), currentObjectIndex, objects, objectMap);
      HttpRefs(o, o[key].s, kind, ids, objects.Keys, pending + {key});
      RefsButSet(host.value.1, objects.Keys, pending, key, host.value.0);
      r := Some(host.value.1[key := Text(host.value.0)]);
    }

    /** The object with its directory split off, its key shortened or its addresses replaced. */
    method SetReferences(o: Obj, args: map<string, string>) returns (r: Option<Obj>)
      requires Valid() && "type" in o && o["type"].Text? && Raw(o, o["type"].s, args)
      modifies this`currentObjectIndex, this`objects, this`objectMap
      ensures Valid() && Grew()
      ensures r == Processed(o, args, objectMap, kind) && Looked(o, args, objectMap, kind)
      ensures r.Some? ==> RefsIn(r.value, objects.Keys)
    {
      hide Grown, TableOk, RefsBut, RefsIn, Filed, FiledLooked, NetRef, NetLooked, Raw, WithProtocolNames,
           WithoutValueName;
      GrownSame(currentObjectIndex, objects, objectMap);
      ghost var i0, os, t := currentObjectIndex, objects, objectMap;
      var ty := o["type"].s;
      if ty == "file" {
        RawPlain(o, args, objects.Keys);
        if "name" in o && o["name"].Text? {
          var f := CreateDirectoryFromFilePath(o, o["name"].s);
          FiledLookedIf(o, o["name"].s, objectMap);
          r := Some(f);
        } else {
          r := None;
        }
      } else if ty == "windows-registry-key" {
        RawPlain(o, args, objects.Keys);
        r := WithoutValueName(o, args);
        WithoutValueNameRefs(o, args, objects.Keys);
      } else if ty == "process" {
        if "filepath" in args {
          var binary := StoreBinary(args["filepath"]);
          RawBinary(o, args, binary, objects.Keys);
          r := Some(o["binary_ref" := Text(binary)]);
        } else {
          RawPlain(o, args, objects.Keys);
          r := Some(o);
        }
      } else if ty == "network-traffic" {
        r := NetworkRefs(o, args);
      } else {
        RawPlain(o, args, objects.Keys);
        r := Some(o);
      }
    }

    /** The file a service process runs from. */
    method StoreBinary(path: string) returns (id: string)
      requires Valid()
      modifies this`currentObjectIndex, this`objects, this`objectMap
      ensures Valid() && Grew() && id in objects
      ensures FiledLooked(map["name" := Text(path)], path, objectMap)
      ensures BinaryObj(path, objectMap) in objectMap && id == objectMap[BinaryObj(path, objectMap)]
    {
      hide Grown, TableOk, RefsIn, Filed, Sortable, Deduplicated, NamesFile, HasDirectory, ParentDirectory;
      ghost var i0, os, t := currentObjectIndex, objects, objectMap;
      NameOnlyRefs(path, objects.Keys);
      var f := CreateDirectoryFromFilePath(map["name" := Text(path)], path);
      BinarySortable(path, objectMap);
      ghost var i1, os1, t1 := currentObjectIndex, objects, objectMap;
      var stored := DeduplicateObj(f);
      GrownTwice(i0, os, t, i1, os1, t1, currentObjectIndex, objects, objectMap);
      GrownKeys(i1, os1, t1, currentObjectIndex, objects, objectMap);
      FiledStable(map["name" := Text(path)], path, t1, objectMap);
      id := stored.value;
    }

    /** Both addresses of a traffic object, then its protocols. */
    method NetworkRefs(o: Obj, args: map<string, string>) returns (r: Option<Obj>)
      requires Valid() && "type" in o && o["type"] == Text("network-traffic") && Raw(o, "network-traffic", args)
      modifies this`currentObjectIndex, this`objects, this`objectMap
      ensures Valid() && Grew()
      ensures r == Processed(o, args, objectMap, kind) && Looked(o, args, objectMap, kind)
      ensures r.Some? ==> RefsIn(r.value, objects.Keys)
    {
      hide Grown, TableOk, RefsBut, RefsIn, Filed, FiledLooked, NetRef, NetLooked, Raw, WithProtocolNames,
           WithoutValueName;
      ghost var i0, os, t := currentObjectIndex, objects, objectMap;
      RawTraffic(o, args, objects.Keys);
      r := NetworkRef(o, "dst_ref", {"src_ref"});
      if r.None? {
        return;
      }
      ghost var i1, os1, t1 := currentObjectIndex, objects, objectMap;
      ghost var o1 := r.value;
      assert {"src_ref"} == {} + {"src_ref"};
      r := NetworkRef(r.value, "src_ref", {});
      GrownTwice(i0, os, t, i1, os1, t1, currentObjectIndex, objects, objectMap);
      GrownKeys(i1, os1, t1, currentObjectIndex, objects, objectMap);
      NetStable(o, "dst_ref", t1, objectMap, kind);
      if r.Some? {
        ProtocolRefs(r.value, objects.Keys);
        r := WithProtocolNames(r.value);
      }
    }

    /** Stores an object after post-processing; None where that raises. */
    method PostProcessObject(o: Obj, args: map<string, string>) returns (id: Option<string>)
      requires Valid() && "type" in o && o["type"].Text? && Raw(o, o["type"].s, args)
      modifies this`currentObjectIndex, this`objects, this`objectMap
      ensures Valid() && Grew() && Looked(o, args, objectMap, kind)
      ensures match Processed(o, args, objectMap, kind)
        case None => id.None?
        case Some(p) =>
          if Sortable(p) then p in objectMap && id == Some(objectMap[p]) && id.value in objects else id.None?
    {
      hide Grown, TableOk, Processed, Looked, Raw, RefsIn, Sortable, Deduplicated;
      ghost var i0, os, t := currentObjectIndex, objects, objectMap;
      var p := SetReferences(o, args);
      if p.None? {
        return None;
      }
      ghost var i1, os1, t1 := currentObjectIndex, objects, objectMap;
      id := DeduplicateObj(p.value);
      GrownTwice(i0, os, t, i1, os1, t1, currentObjectIndex, objects, objectMap);
      GrownKeys(i1, os1, t1, currentObjectIndex, objects, objectMap);
      ProcessedStable(o, args, t1, objectMap, kind);
    }

    /** The object a call's arguments make. */
    method BuildObject(m: ObjectMapping, args: map<string, string>) returns (r: Option<Obj>)
      requires MappingOk(m)
      ensures r == MapEntries(map["type" := Text(m.objectType)], m.entries, args)
      ensures r.Some? ==> Raw(r.value, m.objectType, args)
    {
      hide MapProperty, EntryOk, Raw, Given;
      var start: Obj := map["type" := Text(m.objectType)];
      var o := start;
      RawStart(m.objectType, args);
      assert m.entries[..0] == [];
      for i := 0 to |m.entries|
        invariant MapEntries(start, m.entries[..i], args) == Some(o)
        invariant Raw(o, m.objectType, args)
      {
        var e := m.entries[i];
        assert m.entries[..i + 1] == m.entries[..i] + [e] && e in m.entries;
        MapEntriesSnoc(start, m.entries[..i], e, args);
        if Given(args, e.arg) {
          GivenIn(args, e.arg);
          var next := MapProperty(o, e, Text(args[e.arg]));
          if next.None? {
            assert m.entries == m.entries[..i + 1] + m.entries[i + 1..];
            MapEntriesStuck(start, m.entries[..i + 1], m.entries[i + 1..], args);
            return None;
          }
          RawStep(o, m.objectType, e, args, Text(args[e.arg]));
          o := next.value;
        }
      }
      assert m.entries[..|m.entries|] == m.entries;
      r := Some(o);
    }

    /** The references for one side of an action's mapping. */
    method MapObjects(m: Option<ObjectMapping>, args: map<string, string>) returns (refs: Option<seq<string>>)
      requires Valid() && (m.Some? ==> MappingOk(m.value))
      modifies this`currentObjectIndex, this`objects, this`objectMap
      ensures Valid() && Grew()
      ensures refs == MappedRefs(m, args, objectMap, kind) && MappedLooked(m, args, objectMap, kind)
      ensures refs.Some? ==> forall r :: r in refs.value ==> r in objects
    {
      hide Grown, TableOk, Processed, Looked, Sortable, MapEntries, MappingOk;
      GrownSame(currentObjectIndex, objects, objectMap);
      refs := None;
      if m.Some? {
        var o := BuildObject(m.value, args);
        if o.Some? && |o.value| > 1 {
          refs := Some([]);
          var id := PostProcessObject(o.value, args);
          if id.Some? {
            refs := Some([id.value]);
          }
        }
      }
    }

    /** One action for one API call. */
    method MapApiToAction(m: Mapping, call: Call) returns (id: nat)
      requires Valid() && SidesOk(m)
      modifies this`currentObjectIndex, this`objects, this`objectMap, this`uuids, this`actions, this`maecObjects
      ensures Valid() && Grew() && id == old(uuids) && uuids == old(uuids) + 1
      ensures |actions| == |old(actions)| + 1 && actions[..|old(actions)|] == old(actions)
      ensures actions[|old(actions)|].id == id
      ensures ActionOk(actions[|old(actions)|], m, call, objectMap, objects.Keys, kind)
      ensures maecObjects == old(maecObjects) + [id]
    {
      hide Grown, TableOk, MappedRefs, MappedLooked, MappingOk, AllSortable;
      ghost var i0, os, t := currentObjectIndex, objects, objectMap;
      id := uuids;
      uuids := uuids + 1;
      var inputs := MapObjects(m.input, call.args);
      ghost var i1, os1, t1 := currentObjectIndex, objects, objectMap;
      var outputs := MapObjects(m.output, call.args);
      GrownTwice(i0, os, t, i1, os1, t1, currentObjectIndex, objects, objectMap);
      GrownKeys(i1, os1, t1, currentObjectIndex, objects, objectMap);
      MappedStable(m.input, call.args, t1, objectMap, kind);
      actions := actions + [Action(id, inputs, outputs)];
      maecObjects := maecObjects + [id];
    }

    /** The actions, their ids and the lists of ids by process are those of the calls so far. */
    ghost predicate Recorded(calls: seq<(string, Call)>, first: nat, api: map<string, Mapping>)
      reads this`objects, this`objectMap, this`actions, this`pidActionMap, this`uuids, this`maecObjects
    {
      && uuids == first + |calls|
      && ActionsMatch(actions, calls, first, api, objectMap, objects.Keys, kind)
      && ByProcess(pidActionMap, calls, first)
      && forall k :: first <= k < uuids ==> k in maecObjects
    }

    /** Maps one call and adds the action to its process's list. */
    method RecordCall(pid: string, call: Call, api: map<string, Mapping>, ghost calls: seq<(string, Call)>,
        ghost first: nat)
      requires Valid() && ApiOk(api) && call.api in api && Recorded(calls, first, api)
      modifies this`currentObjectIndex, this`objects, this`objectMap, this`uuids, this`actions, this`maecObjects,
           this`pidActionMap
      ensures Valid() && Grew() && Recorded(calls + [(pid, call)], first, api)
      ensures maecObjects == old(maecObjects) + [old(uuids)]
    {
      hide Grown, TableOk, AllSortable, SidesOk, ActionOk, ActionsMatch, ByProcess;
      ghost var ids, t, as0, m0 := objects.Keys, objectMap, actions, maecObjects;
      ApiSides(api, call.api);
      var id := MapApiToAction(api[call.api], call);
      GrownKeys(old(currentObjectIndex), old(objects), old(objectMap), currentObjectIndex, objects, objectMap);
      ActionsStable(as0, calls, first, api, t, ids, objectMap, objects.Keys, kind);
      ActionsSnoc(as0, actions[|as0|], calls, pid, call, first, api, objectMap, objects.Keys, kind);
      assert actions == as0 + [actions[|as0|]];
      ByProcessSnoc(pidActionMap, calls, first, pid, call);
      if pid !in pidActionMap {
        assert [] + [id] == [id];
        pidActionMap := pidActionMap[pid := [id]];
      } else {
        pidActionMap := pidActionMap[pid := pidActionMap[pid] + [id]];
      }
      assert forall k :: first <= k < uuids ==> k in m0 || k == id;
    }

    /** One action for every mapped call, in the order of the log. */
    method MapApiCalls(processes: seq<Process>, api: map<string, Mapping>)
      requires Valid() && ApiOk(api) && actions == [] && pidActionMap == map[]
      modifies this`currentObjectIndex, this`objects, this`objectMap, this`uuids, this`actions, this`maecObjects,
           this`pidActionMap
      ensures Valid() && Grew() && Recorded(AllCalls(processes, api), old(uuids), api)
      ensures forall k :: k in maecObjects <==> k in old(maecObjects) || old(uuids) <= k < uuids
    {
      hide Grown, TableOk, AllSortable, ActionsMatch, ByProcess, ApiOk, CallsOf;
      ghost var first, i0, os, t := uuids, currentObjectIndex, objects, objectMap;
      GrownSame(i0, os, t);
      NothingRecorded(first, api, t, os.Keys, kind);
      assert processes[..0] == [];
      for i := 0 to |processes|
        invariant Valid() && Grown(i0, os, t, currentObjectIndex, objects, objectMap)
        invariant Recorded(AllCalls(processes[..i], api), first, api)
        invariant forall k :: k in maecObjects <==> k in old(maecObjects) || first <= k < uuids
      {
        var p := processes[i];
        ghost var before := AllCalls(processes[..i], api);
        NoCallsYet(p.pid, api);
        assert p.calls[..0] == [] && before + [] == before;
        for j := 0 to |p.calls|
          invariant Valid() && Grown(i0, os, t, currentObjectIndex, objects, objectMap)
          invariant Recorded(before + CallsOf(p.pid, p.calls[..j], api), first, api)
          invariant forall k :: k in maecObjects <==> k in old(maecObjects) || first <= k < uuids
        {
          ghost var done := before + CallsOf(p.pid, p.calls[..j], api);
          assert p.calls[..j + 1] == p.calls[..j] + [p.calls[j]];
          CallsSnoc(p.pid, p.calls[..j], p.calls[j], api);
          if p.calls[j].api in api {
            ghost var i1, os1, t1 := currentObjectIndex, objects, objectMap;
            RecordCall(p.pid, p.calls[j], api, done, first);
            GrownTwice(i0, os, t, i1, os1, t1, currentObjectIndex, objects, objectMap);
            assert done + [(p.pid, p.calls[j])] == before + CallsOf(p.pid, p.calls[..j + 1], api);
          } else {
            assert done == before + CallsOf(p.pid, p.calls[..j + 1], api);
          }
        }
        assert p.calls[..|p.calls|] == p.calls;
        assert processes[..i + 1] == processes[..i] + [p];
        AllCallsSnoc(processes[..i], p, api);
      }
      assert processes[..|processes|] == processes;
    }

    /** The primary malware instance, the tool and the machine. */
    method Setup(r: Results)
      requires Valid() && primary == None && metadata == None && maecObjects == []
      modifies this`currentObjectIndex, this`objects, this`objectMap, this`uuids, this`primary, this`metadata,
           this`maecObjects
      ensures Valid() && Grew()
      ensures r.target.File? ==>
        && primary == Some(Instance(old(uuids), [Str(old(currentObjectIndex))]))
        && Str(old(currentObjectIndex)) in objects
        && objects[Str(old(currentObjectIndex))] == PrimaryObj(r.target.data, r.target.scans, objectMap)
        && maecObjects == []
      ensures r.target.Url? ==> primary == Some(Instance(old(uuids), [])) && maecObjects == [old(uuids)]
      ensures primary.Some? ==>
        uuids == old(uuids) + 1 && metadata.Some? && MetadataOk(metadata.value, r, objects, objectMap)
      ensures r.target.Other? <==> primary == None
      ensures r.target.Other? ==> maecObjects == []
    {
      hide Grown, TableOk, AllSortable, FileObj, FileLooked, RefsIn, Issued, Str, Unlisted, Deduplicated, MetadataOk;
      ghost var i0, os, t := currentObjectIndex, objects, objectMap;
      GrownSame(i0, os, t);
      match r.target {
        case File(data, scans) =>
          var instance := CreateMalwareInstance(data);
          if scans.Some? {
            var id := instance.objects[0];
            ClosedAt(currentObjectIndex, objects, objectMap, id);
            RefsPlain(objects[id], "extensions", scans.value, objects.Keys);
            ChangedAt(i0, os, t, currentObjectIndex, objects, objectMap, id, objects[id]["extensions" := scans.value]);
            objects := objects[id := objects[id]["extensions" := scans.value]];
          }
          primary := Some(instance);
        case Url(url) =>
          primary := Some(Instance(uuids, []));
          maecObjects := maecObjects + [uuids];
          uuids := uuids + 1;
        case Other =>
      }
      if primary.Some? {
        ghost var os1, t1 := objects, objectMap;
        AddMetadata(r, i0, os, t);
        if r.target.File? {
          FileStable(r.target.data, t1, objectMap);
        }
      }
    }

    method AddMetadata(r: Results, ghost i0: nat, ghost os: map<string, Obj>, ghost t: Table)
      requires Valid() && Grown(i0, os, t, currentObjectIndex, objects, objectMap)
      modifies this`currentObjectIndex, this`objects, this`objectMap, this`metadata
      ensures Valid() && Grown(i0, os, t, currentObjectIndex, objects, objectMap)
      ensures forall id :: id in old(objects) ==> id in objects && objects[id] == old(objects)[id]
      ensures Extends(old(objectMap), objectMap)
      ensures metadata.Some? && MetadataOk(metadata.value, r, objects, objectMap)
    {
      hide Grown, TableOk, AllSortable, RefsIn, Issued, Str, Deduplicated, Sortable;
      ghost var i1, os1, t1 := currentObjectIndex, objects, objectMap;
      var tool := CreateObjId();
      ToolRefs(r.version, objects.Keys);
      StoredUnlisted(i1, os1, t1, ToolObj(r.version));
      objects := objects[tool := ToolObj(r.version)];
      GrownTwice(i0, os, t, i1, os1, t1, currentObjectIndex, objects, objectMap);
      var vm := None;
      if r.vm.Some? {
        ghost var i2, os2, t2 := currentObjectIndex, objects, objectMap;
        MachineRefs(r.vm.value, objects.Keys);
        vm := DeduplicateObj(MachineObj(r.vm.value));
        GrownTwice(i0, os, t, i2, os2, t2, currentObjectIndex, objects, objectMap);
        GrownTwice(i1, os1, t1, i2, os2, t2, currentObjectIndex, objects, objectMap);
        GrownAt(i2, os2, t2, currentObjectIndex, objects, objectMap, tool);
      }
      GrownSameValues(i1, os1, t1, currentObjectIndex, objects, objectMap);
      metadata := Some(Metadata([tool], vm));
    }

    /** A malware instance and a relationship for every dropped file; it raises if there is no primary
        instance to relate it to. */
    method AddDroppedFiles(files: seq<FileData>) returns (ok: bool)
      requires Valid() && dropped == [] && relationships == []
      modifies this`currentObjectIndex, this`objects, this`objectMap, this`uuids, this`dropped, this`relationships
      ensures Valid() && Grew()
      ensures ok <==> files == [] || primary.Some?
      ensures ok ==>
        uuids == old(uuids) + |files| && Related(old(uuids), |files|, primary, dropped, relationships, objects.Keys)
      ensures ok ==> DroppedAre(files, |files|, dropped, objects, objectMap)
    {
      hide Grown, TableOk, AllSortable, FileObj, FileLooked, Issued, Str, Unlisted;
      ghost var i0, os, t, first := currentObjectIndex, objects, objectMap, uuids;
      GrownSame(i0, os, t);
      for i := 0 to |files|
        invariant Valid() && Grown(i0, os, t, currentObjectIndex, objects, objectMap)
        invariant i > 0 ==> primary.Some?
        invariant uuids == first + i && Related(first, i, primary, dropped, relationships, objects.Keys)
        invariant DroppedAre(files, i, dropped, objects, objectMap)
      {
        ghost var i1, os1, t1 := currentObjectIndex, objects, objectMap;
        var instance := CreateMalwareInstance(files[i]);
        GrownTwice(i0, os, t, i1, os1, t1, currentObjectIndex, objects, objectMap);
        GrownSameValues(i1, os1, t1, currentObjectIndex, objects, objectMap);
        DroppedStable(files, i, dropped, os1, t1, objects, objectMap);
        if primary.None? {
          return false;
        }
        relationships := relationships + [Relationship(primary.value.id, instance.id)];
        dropped := dropped + [instance];
      }
      ok := true;
    }

    /** The object of one process, filed under its pid. */
    method CreateProcessObj(p: Process)
      requires Valid()
      modifies this`currentObjectIndex, this`objects, this`objectMap, this`pidObjectMap
      ensures Valid() && Grew()
      ensures ProcessObj(p) in objectMap && pidObjectMap == old(pidObjectMap)[p.pid := objectMap[ProcessObj(p)]]
    {
      hide Grown, TableOk, AllSortable, RefsIn, Sortable, Deduplicated, ProcessObj;
      ProcessRefs(p, objects.Keys);
      var id := DeduplicateObj(ProcessObj(p));
      pidObjectMap := pidObjectMap[p.pid := id.value];
    }

    /** An object for every pid, from the first process that has it, and the children of every pid. */
    method CreateProcessObjects(processes: seq<Process>) returns (children: map<string, seq<string>>)
      requires Valid() && pidObjectMap == map[]
      modifies this`currentObjectIndex, this`objects, this`objectMap, this`pidObjectMap
      ensures Valid() && Grew()
      ensures PidsOk(processes, pidObjectMap, objectMap) && ChildrenOk(processes, processes, children)
    {
      hide Grown, TableOk, AllSortable, PidsOk, ChildrenOk, ProcessObj, HasPid;
      ghost var i0, os, t := currentObjectIndex, objects, objectMap;
      GrownSame(i0, os, t);
      children := map[];
      assert processes[..0] == [];
      NoProcesses(processes, t);
      for i := 0 to |processes|
        invariant Valid() && Grown(i0, os, t, currentObjectIndex, objects, objectMap)
        invariant PidsOk(processes[..i], pidObjectMap, objectMap) && ChildrenOk(processes[..i], processes, children)
      {
        var p := processes[i];
        assert processes[..i + 1] == processes[..i] + [p];
        ChildrenSnoc(processes[..i], processes, children, p);
        if HasPid(processes, p.parent) {
          children := children[p.parent := (if p.parent in children then children[p.parent] else []) + [p.pid]];
        }
        PidsSnoc(processes[..i], p, pidObjectMap, objectMap);
        if p.pid !in pidObjectMap {
          ghost var i1, os1, t1, pids := currentObjectIndex, objects, objectMap, pidObjectMap;
          CreateProcessObj(p);
          GrownTwice(i0, os, t, i1, os1, t1, currentObjectIndex, objects, objectMap);
          GrownKeys(i1, os1, t1, currentObjectIndex, objects, objectMap);
          PidsStable(processes[..i], pids, t1, objectMap);
          PidsSnoc(processes[..i], p, pids, objectMap);
        }
      }
      assert processes[..|processes|] == processes;
    }

    /** The node of one process; its object gets the parent and the children. */
    method CreateProcessTreeNode(p: Process, children: map<string, seq<string>>, isRoot: bool) returns (node: Node)
      requires Valid() && PidsKnown(pidObjectMap, objects.Keys) && p.pid in pidObjectMap
      requires !isRoot ==> p.parent in pidObjectMap
      requires p.pid in children ==> forall x :: x in children[p.pid] ==> x in pidObjectMap
      modifies this`objects
      ensures Valid() && PidsKnown(pidObjectMap, objects.Keys) && objects.Keys == old(objects).Keys
      ensures node == Node(pidObjectMap[p.pid], if p.pid in pidActionMap then pidActionMap[p.pid] else [], isRoot)
      ensures var id := pidObjectMap[p.pid];
        id in old(objects) && objects == old(objects)[id := Linked(old(objects)[id], ParentRef(p, isRoot, pidObjectMap),
                                                                   ChildRefs(p, children, pidObjectMap))]
    {
      hide TableOk, AllSortable, RefsIn, Issued, Str;
      var id := pidObjectMap[p.pid];
      var o := objects[id];
      ChildrenKnown(p, children, pidObjectMap, objects.Keys);
      LinkedOk(currentObjectIndex, objects, objectMap, id, ParentRef(p, isRoot, pidObjectMap),
               ChildRefs(p, children, pidObjectMap));
      if !isRoot && "parent_ref" !in o {
        o := o["parent_ref" := Text(pidObjectMap[p.parent])];
      }
      if p.pid in children {
        o := o["child_refs" := List(Texts(RefsFor(children[p.pid], pidObjectMap)))];
      }
      ghost var before := objects;
      objects := objects[id := o];
      assert objects.Keys == before.Keys;
      node := Node(id, if p.pid in pidActionMap then pidActionMap[p.pid] else [], isRoot);
    }

    /** What is true of the tree once the first n processes have their nodes. */
    ghost predicate TreeUpTo(processes: seq<Process>, n: nat)
      requires n <= |processes|
      reads this`objects, this`pidObjectMap, this`pidActionMap, this`nodes
    {
      && TreeOk(processes, n, pidObjectMap, pidActionMap, nodes)
      && (Unshared(processes, pidObjectMap) ==>
            && (forall j :: 0 <= j < n ==> TreeObject(processes, processes[j], pidObjectMap, objects))
            && (forall j :: n <= j < |processes| ==> PlainObject(processes[j], pidObjectMap, objects)))
    }

    method AddNode(processes: seq<Process>, i: nat, children: map<string, seq<string>>)
      requires i < |processes| && Valid() && PidsKnown(pidObjectMap, objects.Keys) && TreeUpTo(processes, i)
      requires PidsOk(processes, pidObjectMap, objectMap) && ChildrenOk(processes, processes, children)
      modifies this`objects, this`nodes
      ensures Valid() && PidsKnown(pidObjectMap, objects.Keys) && objects.Keys == old(objects).Keys
      ensures TreeUpTo(processes, i + 1)
    {
      hide TableOk, AllSortable, RefsIn, PidsOk, PidsKnown, ChildrenOk, HasPid, Linked, ProcessObj, ChildRefs,
           ParentRef,
           ChildrenOf, TreeObject, Unshared, PlainObject;
      var p := processes[i];
      ghost var before := objects;
      NodeReady(processes, i, pidObjectMap, objectMap, children);
      var node := CreateProcessTreeNode(p, children, !HasPid(processes, p.parent));
      nodes := nodes + [node];
      if Unshared(processes, pidObjectMap) {
        TreeStep(processes, i, children, pidObjectMap, before, objects);
      }
    }

    /** A node for every process in list order. If no two processes share an object, every process's
        object is what the process list says: its own properties, its parent and its children. */
    method AddProcessTree(processes: seq<Process>)
      requires Valid() && pidObjectMap == map[] && nodes == [] && Exact(objects, objectMap)
      modifies this`currentObjectIndex, this`objects, this`objectMap, this`pidObjectMap, this`nodes
      ensures Valid() && old(objects).Keys <= objects.Keys && Extends(old(objectMap), objectMap)
      ensures PidsOk(processes, pidObjectMap, objectMap) && PidsKnown(pidObjectMap, objects.Keys)
      ensures TreeOk(processes, |processes|, pidObjectMap, pidActionMap, nodes)
      ensures Unshared(processes, pidObjectMap) ==>
        forall i :: 0 <= i < |processes| ==> TreeObject(processes, processes[i], pidObjectMap, objects)
    {
      hide TableOk, AllSortable, Grown, RefsIn, Issued, Str, Exact, PidsOk, PidsKnown, ChildrenOk, HasPid, Linked,
           ProcessObj, ChildRefs, ParentRef, ChildrenOf, TreeObject, Unshared;
      ghost var i0, os, t := currentObjectIndex, objects, objectMap;
      var children := CreateProcessObjects(processes);
      GrownKeys(i0, os, t, currentObjectIndex, objects, objectMap);
      ExactGrown(i0, os, t, currentObjectIndex, objects, objectMap);
      PidsAreKnown(currentObjectIndex, objects, objectMap, processes, pidObjectMap);
      ghost var ids, table := objects.Keys, objectMap;
      if Unshared(processes, pidObjectMap) {
        forall j | 0 <= j < |processes| ensures PlainObject(processes[j], pidObjectMap, objects) {
          StillPlain(processes, j, pidObjectMap, objects, objectMap);
        }
      }
      for i := 0 to |processes|
        invariant Valid() && PidsKnown(pidObjectMap, objects.Keys) && objects.Keys == ids
        invariant PidsOk(processes, pidObjectMap, objectMap) && objectMap == table
        invariant TreeUpTo(processes, i)
      {
        AddNode(processes, i, children);
      }
    }

    method ResetTable()
      modifies this`currentObjectIndex, this`objects, this`objectMap
      ensures Valid() && currentObjectIndex == 0 && objects == map[] && objectMap == map[]
    {
      hide TableOk, AllSortable, Exact, Grown;
      EmptyTable();
      currentObjectIndex, objects, objectMap := 0, map[], map[];
    }

    method Reset()
      modifies this
      ensures Valid() && currentObjectIndex == 0 && objects == map[] && objectMap == map[]
      ensures pidObjectMap == map[] && pidActionMap == map[] && uuids == 0 && actions == [] && primary == None
      ensures dropped == [] && relationships == [] && metadata == None && nodes == [] && maecObjects == []
    {
      hide TableOk, AllSortable, MaecReport.Valid;
      ResetTable();
      pidObjectMap, pidActionMap, uuids, actions, primary := map[], map[], 0, [], None;
      dropped, relationships, metadata, nodes, maecObjects := [], [], None, [], [];
    }

    /** A new package with the instances for the target and the dropped files. */
    method Begin(r: Results) returns (related: bool)
      modifies this
      ensures Valid() && Exact(objects, objectMap) && (r.target.File? ==> related)
      ensures pidObjectMap == map[] && pidActionMap == map[] && nodes == [] && actions == []
      ensures related && r.target.File? ==>
        && Parts(r, objects.Keys, primary, metadata, dropped, relationships)
        && maecObjects == [] && uuids == 1 + |r.dropped|
    {
      hide Grown, TableOk, AllSortable, RefsIn, Issued, Str, MetadataOk, Related, Exact, Parts;
      Reset();
      EmptyTable();
      ghost var os0, t0 := objects, objectMap;
      Setup(r);
      ghost var i1, os1, t1 := currentObjectIndex, objects, objectMap;
      ExactGrown(0, os0, t0, i1, os1, t1);
      related := AddDroppedFiles(r.dropped);
      ExactGrown(i1, os1, t1, currentObjectIndex, objects, objectMap);
      if related && r.target.File? {
        GrownKeys(i1, os1, t1, currentObjectIndex, objects, objectMap);
        PartsHold(r, os1, t1, objects.Keys, objects.Keys, primary, metadata, dropped, relationships);
      }
    }

    /** Everything up to the process tree. */
    method Collect(r: Results, api: map<string, Mapping>) returns (related: bool)
      requires ApiOk(api)
      modifies this
      ensures Valid() && (r.target.File? ==> related)
      ensures related ==> Exact(objects, objectMap) && pidObjectMap == map[] && nodes == []
      ensures related && r.target.File? ==>
        && primary.Some? && Parts(r, objects.Keys, primary, metadata, dropped, relationships)
        && ActionsMatch(actions, AllCalls(r.processes, api), 1 + |r.dropped|, api, objectMap, objects.Keys, kind)
        && ByProcess(pidActionMap, AllCalls(r.processes, api), 1 + |r.dropped|)
        && forall k :: k in maecObjects ==> 1 + |r.dropped| <= k
    {
      hide Grown, TableOk, AllSortable, RefsIn, Issued, Str, ActionsMatch, ByProcess, Exact, Parts;
      related := Begin(r);
      if !related {
        return;
      }
      ghost var i2, os2, t2 := currentObjectIndex, objects, objectMap;
      MapApiCalls(r.processes, api);
      GrownKeys(i2, os2, t2, currentObjectIndex, objects, objectMap);
      ExactGrown(i2, os2, t2, currentObjectIndex, objects, objectMap);
      if r.target.File? {
        PartsMore(r, os2.Keys, objects.Keys, primary, metadata, dropped, relationships);
      }
    }

    /** The whole report. It is written only for a file: for a URL the primary instance has no dynamic
        features to put the process tree in, and for anything else there is no primary instance. */
    method Run(r: Results, api: map<string, Mapping>) returns (ok: bool)
      requires ApiOk(api)
      modifies this
      ensures Valid() && (ok <==> r.target.File?)
      ensures ok ==> NoDangling(objects, primary, dropped, metadata, actions, nodes)
      ensures ok ==>
        ActionsMatch(actions, AllCalls(r.processes, api), 1 + |r.dropped|, api, objectMap, objects.Keys, kind)
      ensures ok ==> ByProcess(pidActionMap, AllCalls(r.processes, api), 1 + |r.dropped|)
      ensures ok ==> PidsOk(r.processes, pidObjectMap, objectMap)
      ensures ok ==> TreeOk(r.processes, |r.processes|, pidObjectMap, pidActionMap, nodes)
      ensures ok && Unshared(r.processes, pidObjectMap) ==>
        forall i :: 0 <= i < |r.processes| ==> TreeObject(r.processes, r.processes[i], pidObjectMap, objects)
      ensures ok ==> |relationships| == |r.dropped| && DroppedDangle(relationships, maecObjects)
    {
      hide Grown, TableOk, AllSortable, Closed, RefsIn, Issued, Str, PidsOk, TreeOk, ActionsMatch, ByProcess, Unshared,
           TreeObject,
           PidsKnown, Parts, Exact, NoDangling, DroppedDangle, Extends;
      var related := Collect(r, api);
      if !related {
        return false;
      }
      ghost var ids, t := objects.Keys, objectMap;
      AddProcessTree(r.processes);
      if !r.target.File? {
        return false;
      }
      ActionsStable(actions, AllCalls(r.processes, api), 1 + |r.dropped|, api, t, ids, objectMap, objects.Keys, kind);
      ActionsKnown(actions, AllCalls(r.processes, api), 1 + |r.dropped|, api, objectMap, objects.Keys, kind);
      NodesKnown(r.processes, pidObjectMap, pidActionMap, objectMap, objects.Keys, nodes, actions, api,
                 1 + |r.dropped|, kind);
      TableParts(currentObjectIndex, objects, objectMap);
      NoDanglingIf(r, ids, objects, primary, dropped, relationships, metadata, actions, nodes);
      DroppedDangleIf(r, ids, primary, dropped, relationships, metadata, maecObjects);
      maecObjects := maecObjects + [primary.value.id];
      ok := true;
    }
  }

  // ---- the whole package

  lemma {:induction false} EmptyTable()
    ensures TableOk(0, map[], map[]) && AllSortable(map[]) && Exact(map[], map[])
    ensures Grown(0, map[], map[], 0, map[], map[])
  {}

  /** Every id in the package is the id of a stored object, and every action named by a tree node is
      in the package. */
  ghost predicate NoDangling(objects: map<string, Obj>, primary: Option<Instance>, dropped: seq<Instance>,
                             metadata: Option<Metadata>, actions: seq<Action>, nodes: seq<Node>) {
    && Closed(objects)
    && primary.Some? && (forall r :: r in primary.value.objects ==> r in objects)
    && (forall i, r :: 0 <= i < |dropped| && r in dropped[i].objects ==> r in objects)
    && metadata.Some? && MetadataIn(metadata.value, objects.Keys)
    && (forall a :: a in actions ==> RefsKnown(a.inputs, objects.Keys) && RefsKnown(a.outputs, objects.Keys))
    && (forall n :: n in nodes ==> n.process in objects && forall id :: id in n.actions ==> IsAction(id, actions))
  }

  ghost predicate MetadataIn(m: Metadata, ids: set<string>) {
    (forall r :: r in m.tools ==> r in ids) && (m.vm.Some? ==> m.vm.value in ids)
  }

  ghost predicate IsAction(id: nat, actions: seq<Action>) {
    exists i :: 0 <= i < |actions| && actions[i].id == id
  }

  /** The instances of dropped files are related to the primary one but never put in the package. */
  ghost predicate DroppedDangle(relationships: seq<Relationship>, maecObjects: seq<nat>) {
    forall i :: 0 <= i < |relationships| ==>
      relationships[i].source in maecObjects && relationships[i].target !in maecObjects
  }

  /** What is collected for a file: its instance has id 0, those of the dropped files the next ones. */
  ghost predicate Parts(r: Results, ids: set<string>, primary: Option<Instance>, metadata: Option<Metadata>,
                        dropped: seq<Instance>, relationships: seq<Relationship>) {
    && primary.Some? && primary.value.id == 0 && (forall x :: x in primary.value.objects ==> x in ids)
    && metadata.Some? && MetadataIn(metadata.value, ids)
    && Related(1, |r.dropped|, primary, dropped, relationships, ids)
  }

  lemma {:induction false} PartsHold(r: Results, os: map<string, Obj>, t: Table, ids: set<string>, ids': set<string>,
      primary: Option<Instance>, metadata: Option<Metadata>, dropped: seq<Instance>, relationships: seq<Relationship>)
    requires primary.Some? && primary.value.id == 0 && (forall x :: x in primary.value.objects ==> x in os)
    requires metadata.Some? && MetadataOk(metadata.value, r, os, t) && os.Keys <= ids <= ids'
    requires Related(1, |r.dropped|, primary, dropped, relationships, ids)
    ensures Parts(r, ids', primary, metadata, dropped, relationships)
  {
    MetadataKnown(metadata.value, r, os, t, ids');
    hide MetadataOk, MetadataIn;
  }

  lemma {:induction false} PartsMore(r: Results, ids: set<string>, ids': set<string>, primary: Option<Instance>,
      metadata: Option<Metadata>, dropped: seq<Instance>, relationships: seq<Relationship>)
    requires Parts(r, ids, primary, metadata, dropped, relationships) && ids <= ids'
    ensures primary.Some? && Parts(r, ids', primary, metadata, dropped, relationships)
  {}

  lemma {:induction false} NoDanglingIf(r: Results, ids: set<string>, objects: map<string, Obj>,
      primary: Option<Instance>, dropped: seq<Instance>, relationships: seq<Relationship>, metadata: Option<Metadata>,
      actions: seq<Action>, nodes: seq<Node>)
    requires Closed(objects) && Parts(r, ids, primary, metadata, dropped, relationships) && ids <= objects.Keys
    requires forall a :: a in actions ==> RefsKnown(a.inputs, objects.Keys) && RefsKnown(a.outputs, objects.Keys)
    requires forall n :: n in nodes ==> n.process in objects && forall id :: id in n.actions ==> IsAction(id, actions)
    ensures NoDangling(objects, primary, dropped, metadata, actions, nodes)
  {
    hide Closed, RefsKnown, IsAction;
  }

  lemma {:induction false} DroppedDangleIf(r: Results, ids: set<string>, primary: Option<Instance>,
      dropped: seq<Instance>, relationships: seq<Relationship>, metadata: Option<Metadata>, maecObjects: seq<nat>)
    requires Parts(r, ids, primary, metadata, dropped, relationships) && forall k :: k in maecObjects ==>
      1 + |r.dropped| <= k
    ensures |relationships| == |r.dropped| && DroppedDangle(relationships, maecObjects + [primary.value.id])
  {
    hide MetadataIn;
  }

  lemma {:induction false} MetadataKnown(m: Metadata, r: Results, os: map<string, Obj>, t: Table, ids: set<string>)
    requires MetadataOk(m, r, os, t) && os.Keys <= ids
    ensures MetadataIn(m, ids)
  {
    hide ToolObj, MachineObj;
  }

  lemma {:induction false} ActionsKnown(actions: seq<Action>, calls: seq<(string, Call)>, first: nat,
      api: map<string, Mapping>, t: Table, ids: set<string>, kind: string -> Kind)
    requires ActionsMatch(actions, calls, first, api, t, ids, kind)
    ensures forall a :: a in actions ==> RefsKnown(a.inputs, ids) && RefsKnown(a.outputs, ids)
  {
    hide RefsKnown, MappedRefs, MappedLooked;
    forall a | a in actions ensures RefsKnown(a.inputs, ids) && RefsKnown(a.outputs, ids) {
      var i :| 0 <= i < |actions| && actions[i] == a;
      assert ActionOk(actions[i], api[calls[i].1.api], calls[i].1, t, ids, kind);
    }
  }

  lemma {:induction false} IdsInRange(calls: seq<(string, Call)>, first: nat, pid: string, id: nat)
    requires id in IdsOf(calls, first, pid)
    ensures first <= id < first + |calls|
  {
    var n := |calls| - 1;
    if id in IdsOf(calls[..n], first, pid) {
      IdsInRange(calls[..n], first, pid, id);
    }
  }

  lemma {:induction false} NodesKnown(processes: seq<Process>, pids: map<string, string>, acts: map<string, seq<nat>>,
      t: Table, ids: set<string>, nodes: seq<Node>, actions: seq<Action>, api: map<string, Mapping>, first: nat,
      kind: string -> Kind)
    requires TreeOk(processes, |processes|, pids, acts, nodes) && PidsOk(processes, pids, t) && PidsKnown(pids, ids)
    requires ActionsMatch(actions, AllCalls(processes, api), first, api, t, ids, kind)
    requires ByProcess(acts, AllCalls(processes, api), first)
    ensures forall n :: n in nodes ==> n.process in ids && forall id :: id in n.actions ==> IsAction(id, actions)
  {
    hide AllCalls, ActionOk, HasPid, FirstWith, ProcessObj, IdsOf;
    forall n | n in nodes ensures n.process in ids && forall id :: id in n.actions ==> IsAction(id, actions) {
      var i :| 0 <= i < |nodes| && nodes[i] == n;
      HasPidAt(processes, i);
      forall id | id in n.actions ensures IsAction(id, actions) {
        IdsInRange(AllCalls(processes, api), first, processes[i].pid, id);
        assert actions[id - first].id == id;
      }
    }
  }

  /** Distinct pids and distinct properties, of which the pid is not one. */
  ghost predicate DistinctProcesses(processes: seq<Process>) {
    forall i, j :: 0 <= i < j < |processes| ==>
      processes[i].pid != processes[j].pid && ProcessObj(processes[i]) != ProcessObj(processes[j])
  }

  /** Processes have objects of their own exactly when their pids and their properties are distinct;
      two with the same name, command line and first-seen time end up as one object. */
  lemma {:induction false} UnsharedIff(processes: seq<Process>, pids: map<string, string>, i: nat,
      objects: map<string, Obj>, t: Table)
    requires TableOk(i, objects, t) && PidsOk(processes, pids, t)
    ensures Unshared(processes, pids) <==> DistinctProcesses(processes)
  {
    forall k | 0 <= k < |processes| ensures processes[k].pid in pids {
      HasPidAt(processes, k);
    }
    if DistinctProcesses(processes) {
      forall j, k | 0 <= j < k < |processes| ensures pids[processes[j].pid] != pids[processes[k].pid] {
        FirstIsOnly(processes, j);
        FirstIsOnly(processes, k);
        hide AllKept, Closed, AllIssued, HasPid, FirstWith, ProcessObj;
      }
    } else {
      var j, k :| 0 <= j < k < |processes|
        && !(processes[j].pid != processes[k].pid && ProcessObj(processes[j]) != ProcessObj(processes[k]));
      if Unshared(processes, pids) && processes[j].pid != processes[k].pid {
        FirstUnshared(processes, pids, j);
        FirstUnshared(processes, pids, k);
      }
    }
  }

  lemma {:induction false} FirstIsOnly(processes: seq<Process>, j: nat)
    requires j < |processes| && DistinctProcesses(processes)
    ensures HasPid(processes, processes[j].pid) && FirstWith(processes, processes[j].pid) == processes[j]
  {
    HasPidAt(processes, j);
    var k := FirstListed(processes, processes[j].pid);
    hide HasPid, FirstWith, ProcessObj;
    assert k == j;
  }

  lemma {:induction false} FirstUnshared(processes: seq<Process>, pids: map<string, string>, j: nat)
    requires j < |processes| && Unshared(processes, pids) && forall k :: 0 <= k < |processes| ==>
      processes[k].pid in pids
    ensures HasPid(processes, processes[j].pid) && FirstWith(processes, processes[j].pid) == processes[j]
  {
    HasPidAt(processes, j);
    var k := FirstListed(processes, processes[j].pid);
    hide HasPid, FirstWith, ProcessObj;
    assert k == j;
  }

  // ---- the process tree

  function Texts(ss: seq<string>): seq<Value> {
    seq(|ss|, i requires 0 <= i < |ss| => Text(ss[i]))
  }

  function RefsFor(pids: seq<string>, ids: map<string, string>): seq<string> {
    seq(|pids|, i requires 0 <= i < |pids| => if pids[i] in ids then ids[pids[i]] else "")
  }

  function ParentRef(p: Process, isRoot: bool, ids: map<string, string>): Option<string> {
    if isRoot || p.parent !in ids then None else Some(ids[p.parent])
  }

  function ChildRefs(p: Process, children: map<string, seq<string>>, ids: map<string, string>): Option<seq<string>> {
    if p.pid in children then Some(RefsFor(children[p.pid], ids)) else None
  }

  /** A process object with its parent, unless it has one, and its children. */
  function Linked(o: Obj, parent: Option<string>, kids: Option<seq<string>>): Obj {
    var o1 := if parent.Some? && "parent_ref" !in o then o["parent_ref" := Text(parent.value)] else o;
    if kids.Some? then o1["child_refs" := List(Texts(kids.value))] else o1
  }

  /** The table stores every object unchanged. */
  ghost predicate Exact(objects: map<string, Obj>, t: Table) {
    forall o :: o in t ==> t[o] in objects && objects[t[o]] == o
  }

  lemma {:induction false} ExactGrown(i: nat, os: map<string, Obj>, t: Table, i': nat, os': map<string, Obj>, t': Table)
    requires Exact(os, t) && Grown(i, os, t, i', os', t')
    ensures Exact(os', t')
  {
    hide Issued;
  }

  ghost predicate PidsKnown(pids: map<string, string>, ids: set<string>) {
    forall pid :: pid in pids ==> pids[pid] in ids
  }

  lemma {:induction false} PidsAreKnown(i: nat, os: map<string, Obj>, t: Table, processes: seq<Process>,
      pids: map<string, string>)
    requires TableOk(i, os, t) && PidsOk(processes, pids, t)
    ensures PidsKnown(pids, os.Keys)
  {
    hide Kept, Closed, Injective, AllIssued, HasPid, FirstWith, ProcessObj;
  }

  lemma {:induction false} ChildrenKnown(p: Process, children: map<string, seq<string>>, pids: map<string, string>,
      ids: set<string>)
    requires PidsKnown(pids, ids) && (p.pid in children ==> forall x :: x in children[p.pid] ==> x in pids)
    ensures ChildRefs(p, children, pids).Some? ==> forall r :: r in ChildRefs(p, children, pids).value ==> r in ids
  {}

  lemma {:induction false} LinkedOk(i: nat, os: map<string, Obj>, t: Table, id: string, parent: Option<string>,
      kids: Option<seq<string>>)
    requires TableOk(i, os, t) && id in os && (parent.Some? ==> parent.value in os)
    requires kids.Some? ==> forall r :: r in kids.value ==> r in os
    ensures TableOk(i, os[id := Linked(os[id], parent, kids)], t)
  {
    var o := Linked(os[id], parent, kids);
    var os' := os[id := o];
    assert os'.Keys == os.Keys;
    LinkedKept(os, t, id, parent, kids);
    LinkedRefs(os[id], parent, kids, os.Keys);
    forall x | x in os' ensures RefsIn(os'[x], os'.Keys) {
      if x != id { assert os'[x] == os[x]; }
    }
    assert AllIssued(i, os');
    hide RefsIn, Issued, AllKept, Injective, AllIssued, Linked;
  }

  lemma {:induction false} LinkedKept(os: map<string, Obj>, t: Table, id: string, parent: Option<string>,
      kids: Option<seq<string>>)
    requires AllKept(os, t) && id in os
    ensures AllKept(os[id := Linked(os[id], parent, kids)], t)
  {}

  lemma {:induction false} LinkedRefs(o: Obj, parent: Option<string>, kids: Option<seq<string>>, ids: set<string>)
    requires RefsIn(o, ids) && (parent.Some? ==> parent.value in ids)
    requires kids.Some? ==> forall r :: r in kids.value ==> r in ids
    ensures RefsIn(Linked(o, parent, kids), ids)
  {}

  function NodeFor(processes: seq<Process>, p: Process, pids: map<string, string>, acts: map<string, seq<nat>>): Node {
    Node(if p.pid in pids then pids[p.pid] else "", if p.pid in acts then acts[p.pid] else [],
         !HasPid(processes, p.parent))
  }

  ghost predicate TreeOk(processes: seq<Process>, n: nat, pids: map<string, string>, acts: map<string, seq<nat>>,
      nodes: seq<Node>) {
    |nodes| == n <= |processes| && forall i :: 0 <= i < n ==> nodes[i] == NodeFor(processes, processes[i], pids, acts)
  }

  /** No two listed processes have the same object. */
  ghost predicate Unshared(processes: seq<Process>, pids: map<string, string>) {
    forall i, j :: 0 <= i < j < |processes| && processes[i].pid in pids && processes[j].pid in pids ==>
      pids[processes[i].pid] != pids[processes[j].pid]
  }

  ghost predicate PlainObject(p: Process, pids: map<string, string>, objects: map<string, Obj>) {
    p.pid in pids && pids[p.pid] in objects && objects[pids[p.pid]] == ProcessObj(p)
  }

  function Kids(processes: seq<Process>, p: Process, pids: map<string, string>): Option<seq<string>> {
    var kids := ChildrenOf(processes, p.pid);
    if kids == [] then None else Some(RefsFor(kids, pids))
  }

  /** The process's object: its properties, its listed parent, and its children in list order. */
  ghost predicate TreeObject(processes: seq<Process>, p: Process, pids: map<string, string>,
      objects: map<string, Obj>) {
    p.pid in pids && pids[p.pid] in objects
    && objects[pids[p.pid]]
       == Linked(ProcessObj(p), ParentRef(p, !HasPid(processes, p.parent), pids), Kids(processes, p, pids))
  }

  lemma {:induction false} FirstListed(processes: seq<Process>, pid: string) returns (k: nat)
    requires HasPid(processes, pid)
    ensures k < |processes| && processes[k] == FirstWith(processes, pid) && processes[k].pid == pid
  {
    var n := |processes| - 1;
    if HasPid(processes[..n], pid) {
      k := FirstListed(processes[..n], pid);
    } else {
      k := n;
    }
  }

  lemma {:induction false} StillPlain(processes: seq<Process>, j: nat, pids: map<string, string>,
      objects: map<string, Obj>, t: Table)
    requires j < |processes| && PidsOk(processes, pids, t) && Exact(objects, t) && Unshared(processes, pids)
    ensures PlainObject(processes[j], pids, objects)
  {
    HasPidAt(processes, j);
    var k := FirstListed(processes, processes[j].pid);
    hide HasPid, FirstWith, ProcessObj;
    assert k == j;
  }

  lemma {:induction false} ChildrenListed(processes: seq<Process>, all: seq<Process>, pid: string, x: string)
    requires x in ChildrenOf(processes, pid) && |processes| <= |all| && processes == all[..|processes|]
    ensures HasPid(all, x)
  {
    var n := |processes| - 1;
    if processes[n].parent == pid && processes[n].pid == x {
      HasPidAt(all, n);
    } else {
      ChildrenListed(processes[..n], all, pid, x);
    }
  }

  lemma {:induction false} NodeReady(processes: seq<Process>, i: nat, pids: map<string, string>, t: Table,
      children: map<string, seq<string>>)
    requires i < |processes| && PidsOk(processes, pids, t) && ChildrenOk(processes, processes, children)
    ensures processes[i].pid in pids && (HasPid(processes, processes[i].parent) ==> processes[i].parent in pids)
    ensures processes[i].pid in children ==> forall x :: x in children[processes[i].pid] ==> x in pids
  {
    HasPidAt(processes, i);
    if processes[i].pid in children {
      forall x | x in children[processes[i].pid] ensures x in pids {
        assert processes == processes[..|processes|];
        ChildrenListed(processes, processes, processes[i].pid, x);
      }
    }
    hide HasPid, ChildrenOf, FirstWith;
  }

  lemma {:induction false} KidsAre(processes: seq<Process>, i: nat, children: map<string, seq<string>>,
      pids: map<string, string>)
    requires i < |processes| && ChildrenOk(processes, processes, children)
    ensures ChildRefs(processes[i], children, pids) == Kids(processes, processes[i], pids)
  {
    HasPidAt(processes, i);
    hide HasPid, ChildrenOf, RefsFor;
  }

  lemma {:induction false} TreeStep(processes: seq<Process>, i: nat, children: map<string, seq<string>>,
      pids: map<string, string>, before: map<string, Obj>, objects: map<string, Obj>)
    requires i < |processes| && Unshared(processes, pids) && ChildrenOk(processes, processes, children)
    requires forall j :: 0 <= j < i ==> TreeObject(processes, processes[j], pids, before)
    requires forall j :: i <= j < |processes| ==> PlainObject(processes[j], pids, before)
    requires var p := processes[i];
      p.pid in pids && pids[p.pid] in before
      && objects == before[pids[p.pid] := Linked(before[pids[p.pid]], ParentRef(p, !HasPid(processes, p.parent), pids),
                                                 ChildRefs(p, children, pids))]
    ensures forall j :: 0 <= j <= i ==> TreeObject(processes, processes[j], pids, objects)
    ensures forall j :: i < j < |processes| ==> PlainObject(processes[j], pids, objects)
  {
    hide HasPid, ChildrenOf, ProcessObj, Linked, ParentRef, ChildrenOk, Kids, ChildRefs;
    KidsAre(processes, i, children, pids);
    forall j | 0 <= j < i ensures TreeObject(processes, processes[j], pids, objects) {
      assert TreeObject(processes, processes[j], pids, before);
    }
    forall j | i < j < |processes| ensures PlainObject(processes[j], pids, objects) {
      assert PlainObject(processes[j], pids, before);
    }
    assert PlainObject(processes[i], pids, before);
    assert TreeObject(processes, processes[i], pids, objects);
  }

  // ---- processes

  function ProcessObj(p: Process): Obj {
    var o0: Obj := map["type" := Text("process")];
    var o1 := if p.pidField.Some? then o0["pid" := Text(p.pidField.value)] else o0;
    var o2 := if p.name.Some? then o1["name" := Text(p.name.value)] else o1;
    var o3 := if p.commandLine.Some? then o2["command_line" := Text(p.commandLine.value)] else o2;
    if p.created.Some? then o3["created" := Text(p.created.value)] else o3
  }

  lemma {:induction false} ProcessRefs(p: Process, ids: set<string>)
    ensures RefsIn(ProcessObj(p), ids) && Sortable(ProcessObj(p)) && "parent_ref" !in ProcessObj(p)
    ensures "child_refs" !in ProcessObj(p)
  {
    hide InOrder, Sortable;
    PlainSortable(ProcessObj(p));
  }

  predicate HasPid(processes: seq<Process>, pid: string) {
    processes != [] && (HasPid(processes[..|processes| - 1], pid) || processes[|processes| - 1].pid == pid)
  }

  /** The first process listed with a pid. */
  function FirstWith(processes: seq<Process>, pid: string): Process
    requires HasPid(processes, pid)
  {
    var n := |processes| - 1;
    if HasPid(processes[..n], pid) then FirstWith(processes[..n], pid) else processes[n]
  }

  lemma {:induction false} HasPidSnoc(processes: seq<Process>, p: Process, pid: string)
    ensures HasPid(processes + [p], pid) <==> HasPid(processes, pid) || pid == p.pid
    ensures HasPid(processes, pid) ==> FirstWith(processes + [p], pid) == FirstWith(processes, pid)
    ensures !HasPid(processes, pid) && pid == p.pid ==> FirstWith(processes + [p], pid) == p
  {}

  lemma {:induction false} HasPidAt(processes: seq<Process>, i: nat)
    requires i < |processes|
    ensures HasPid(processes, processes[i].pid)
  {
    var n := |processes| - 1;
    if i < n {
      HasPidAt(processes[..n], i);
    }
  }

  /** Every pid listed is mapped to the object of the first process that has it. */
  ghost predicate PidsOk(processes: seq<Process>, pids: map<string, string>, t: Table) {
    && (forall pid :: pid in pids <==> HasPid(processes, pid))
    && forall pid :: pid in pids ==>
         ProcessObj(FirstWith(processes, pid)) in t && pids[pid] == t[ProcessObj(FirstWith(processes, pid))]
  }

  lemma {:induction false} PidsStable(processes: seq<Process>, pids: map<string, string>, t: Table, t': Table)
    requires PidsOk(processes, pids, t) && Extends(t, t')
    ensures PidsOk(processes, pids, t')
  {
    hide HasPid, FirstWith, ProcessObj;
  }

  lemma {:induction false} PidsSnoc(processes: seq<Process>, p: Process, pids: map<string, string>, t: Table)
    requires PidsOk(processes, pids, t)
    ensures p.pid in pids ==> PidsOk(processes + [p], pids, t)
    ensures p.pid !in pids && ProcessObj(p) in t ==> PidsOk(processes + [p], pids[p.pid := t[ProcessObj(p)]], t)
  {
    forall pid
      ensures HasPid(processes + [p], pid) <==> HasPid(processes, pid) || pid == p.pid
      ensures HasPid(processes, pid) ==> FirstWith(processes + [p], pid) == FirstWith(processes, pid)
      ensures !HasPid(processes, pid) && pid == p.pid ==> FirstWith(processes + [p], pid) == p {
      HasPidSnoc(processes, p, pid);
    }
    hide HasPid, FirstWith, ProcessObj;
  }

  /** The pids of the listed children of a process, in list order. */
  function ChildrenOf(processes: seq<Process>, pid: string): seq<string> {
    if processes == [] then []
    else
      var n := |processes| - 1;
      ChildrenOf(processes[..n], pid) + if processes[n].parent == pid then [processes[n].pid] else []
  }

  ghost predicate ChildrenOk(processes: seq<Process>, all: seq<Process>, children: map<string, seq<string>>) {
    forall pid :: (pid in children <==> HasPid(all, pid) && ChildrenOf(processes, pid) != [])
      && (pid in children ==> children[pid] == ChildrenOf(processes, pid))
  }

  lemma {:induction false} NoProcesses(all: seq<Process>, t: Table)
    ensures PidsOk([], map[], t) && ChildrenOk([], all, map[])
  {}

  lemma {:induction false} ChildrenSnoc(processes: seq<Process>, all: seq<Process>, children: map<string, seq<string>>,
      p: Process)
    requires ChildrenOk(processes, all, children)
    ensures ChildrenOk(processes + [p], all,
      if HasPid(all, p.parent) then
        children[p.parent := (if p.parent in children then children[p.parent] else []) + [p.pid]]
      else children)
  {
    forall pid
      ensures ChildrenOf(processes + [p], pid)
        == ChildrenOf(processes, pid) + if p.parent == pid then [p.pid] else [] {
      assert (processes + [p])[..|processes|] == processes;
    }
    hide ChildrenOf, HasPid;
  }

  // ---- instances and metadata

  function ToolObj(version: string): Obj {
    map["type" := Text("software"), "name" := Text("Cuckoo Sandbox"), "version" := Text(version)]
  }

  function MachineObj(manager: string): Obj {
    map["type" := Text("software"), "name" := Text(manager)]
  }

  lemma {:induction false} ToolRefs(version: string, ids: set<string>)
    ensures RefsIn(ToolObj(version), ids)
  {}

  lemma {:induction false} MachineRefs(manager: string, ids: set<string>)
    ensures RefsIn(MachineObj(manager), ids) && Sortable(MachineObj(manager))
  {}

  lemma {:induction false} ClosedAt(i: nat, os: map<string, Obj>, t: Table, id: string)
    requires TableOk(i, os, t) && id in os
    ensures RefsIn(os[id], os.Keys)
  {
    hide RefsIn;
  }

  lemma {:induction false} GrownSameValues(i: nat, os: map<string, Obj>, t: Table, i': nat, os': map<string, Obj>,
      t': Table)
    requires Grown(i, os, t, i', os', t')
    ensures (forall id :: id in os ==> id in os' && os'[id] == os[id]) && Extends(t, t')
  {}

  lemma {:induction false} GrownAt(i: nat, os: map<string, Obj>, t: Table, i': nat, os': map<string, Obj>, t': Table,
      id: string)
    requires Grown(i, os, t, i', os', t') && id in os
    ensures id in os' && os'[id] == os[id]
  {}

  ghost predicate MetadataOk(m: Metadata, r: Results, os: map<string, Obj>, t: Table) {
    && |m.tools| == 1 && m.tools[0] in os && os[m.tools[0]] == ToolObj(r.version)
    && (m.vm.Some? <==> r.vm.Some?)
    && (r.vm.Some? ==> MachineObj(r.vm.value) in t && m.vm.value == t[MachineObj(r.vm.value)] && m.vm.value in os)
  }

  /** The first n dropped files are stored as the file objects of their instances. */
  ghost predicate DroppedAre(files: seq<FileData>, n: nat, dropped: seq<Instance>, os: map<string, Obj>, t: Table) {
    |dropped| == n <= |files| && forall i :: 0 <= i < n ==> IsFileOf(files[i], dropped[i], os, t)
  }

  ghost predicate IsFileOf(d: FileData, instance: Instance, os: map<string, Obj>, t: Table) {
    |instance.objects| == 1 && instance.objects[0] in os && os[instance.objects[0]] == FileObj(d, t) && FileLooked(d, t)
  }

  lemma {:induction false} DroppedStable(files: seq<FileData>, n: nat, dropped: seq<Instance>, os: map<string, Obj>,
      t: Table, os': map<string, Obj>, t': Table)
    requires DroppedAre(files, n, dropped, os, t) && Extends(t, t')
    requires forall id :: id in os ==> id in os' && os'[id] == os[id]
    ensures DroppedAre(files, n, dropped, os', t')
  {
    hide FileObj, FileLooked, Extends;
    forall i | 0 <= i < n ensures IsFileOf(files[i], dropped[i], os', t') {
      assert IsFileOf(files[i], dropped[i], os, t);
      FileStable(files[i], t, t');
    }
  }

  ghost predicate Related(first: nat, n: nat, primary: Option<Instance>, dropped: seq<Instance>,
                          relationships: seq<Relationship>, ids: set<string>) {
    && |dropped| == |relationships| == n
    && forall i :: 0 <= i < n ==>
         && dropped[i].id == first + i && |dropped[i].objects| == 1 && dropped[i].objects[0] in ids
         && primary.Some? && relationships[i] == Relationship(primary.value.id, dropped[i].id)
  }

  // ---- the calls that become actions

  function CallsOf(pid: string, calls: seq<Call>, api: map<string, Mapping>): seq<(string, Call)> {
    if calls == [] then []
    else
      var n := |calls| - 1;
      CallsOf(pid, calls[..n], api) + if calls[n].api in api then [(pid, calls[n])] else []
  }

  /** The mapped calls of the whole log, each with its process. */
  function AllCalls(processes: seq<Process>, api: map<string, Mapping>): seq<(string, Call)> {
    if processes == [] then []
    else
      var n := |processes| - 1;
      AllCalls(processes[..n], api) + CallsOf(processes[n].pid, processes[n].calls, api)
  }

  lemma {:induction false} NoCallsYet(pid: string, api: map<string, Mapping>)
    ensures CallsOf(pid, [], api) == []
  {}

  lemma {:induction false} CallsSnoc(pid: string, calls: seq<Call>, call: Call, api: map<string, Mapping>)
    ensures CallsOf(pid, calls + [call], api)
      == CallsOf(pid, calls, api) + if call.api in api then [(pid, call)] else []
  {}

  lemma {:induction false} AllCallsSnoc(processes: seq<Process>, p: Process, api: map<string, Mapping>)
    ensures AllCalls(processes + [p], api) == AllCalls(processes, api) + CallsOf(p.pid, p.calls, api)
  {}

  ghost predicate ApiOk(api: map<string, Mapping>) {
    forall name :: name in api ==> SidesOk(api[name])
  }

  lemma {:induction false} ApiSides(api: map<string, Mapping>, name: string)
    requires ApiOk(api) && name in api
    ensures SidesOk(api[name])
  {}

  /** One action per call, with consecutive ids, each as its mapping makes it. */
  ghost predicate ActionsMatch(actions: seq<Action>, calls: seq<(string, Call)>, first: nat, api: map<string, Mapping>,
                               t: Table, ids: set<string>, kind: string -> Kind) {
    && |actions| == |calls|
    && forall i :: 0 <= i < |actions| ==>
         actions[i].id == first + i && calls[i].1.api in api
         && ActionOk(actions[i], api[calls[i].1.api], calls[i].1, t, ids, kind)
  }

  lemma {:induction false} ActionsStable(actions: seq<Action>, calls: seq<(string, Call)>, first: nat,
      api: map<string, Mapping>, t: Table, ids: set<string>, t': Table, ids': set<string>, kind: string -> Kind)
    requires ActionsMatch(actions, calls, first, api, t, ids, kind) && Extends(t, t') && ids <= ids'
    ensures ActionsMatch(actions, calls, first, api, t', ids', kind)
  {
    forall i | 0 <= i < |actions| ensures ActionOk(actions[i], api[calls[i].1.api], calls[i].1, t', ids', kind) {
      ActionStable(actions[i], api[calls[i].1.api], calls[i].1, t, ids, t', ids', kind);
    }
    hide ActionOk;
  }

  lemma {:induction false} ActionsSnoc(actions: seq<Action>, a: Action, calls: seq<(string, Call)>, pid: string,
      call: Call, first: nat, api: map<string, Mapping>, t: Table, ids: set<string>, kind: string -> Kind)
    requires ActionsMatch(actions, calls, first, api, t, ids, kind) && call.api in api
    requires a.id == first + |calls| && ActionOk(a, api[call.api], call, t, ids, kind)
    ensures ActionsMatch(actions + [a], calls + [(pid, call)], first, api, t, ids, kind)
  {
    hide ActionOk;
  }

  lemma {:induction false} NothingRecorded(first: nat, api: map<string, Mapping>, t: Table, ids: set<string>,
      kind: string -> Kind)
    ensures ActionsMatch([], [], first, api, t, ids, kind) && ByProcess(map[], [], first)
  {}

  /** The ids of a process's calls, when the calls are numbered from `first`. */
  function IdsOf(calls: seq<(string, Call)>, first: nat, pid: string): seq<nat> {
    if calls == [] then []
    else
      var n := |calls| - 1;
      IdsOf(calls[..n], first, pid) + if calls[n].0 == pid then [first + n] else []
  }

  ghost predicate ByProcess(pids: map<string, seq<nat>>, calls: seq<(string, Call)>, first: nat) {
    forall pid ::
      (pid in pids <==> IdsOf(calls, first, pid) != []) && (pid in pids ==> pids[pid] == IdsOf(calls, first, pid))
  }

  lemma {:induction false} IdsSnoc(calls: seq<(string, Call)>, first: nat, pid: string, call: Call, other: string)
    ensures IdsOf(calls + [(pid, call)], first, other)
      == IdsOf(calls, first, other) + if other == pid then [first + |calls|] else []
  {
    assert (calls + [(pid, call)])[..|calls|] == calls;
  }

  lemma {:induction false} ByProcessSnoc(pids: map<string, seq<nat>>, calls: seq<(string, Call)>, first: nat,
      pid: string, call: Call)
    requires ByProcess(pids, calls, first)
    ensures ByProcess(pids[pid := (if pid in pids then pids[pid] else []) + [first + |calls|]],
                      calls + [(pid, call)], first)
  {
    forall other ensures IdsOf(calls + [(pid, call)], first, other)
      == IdsOf(calls, first, other) + if other == pid then [first + |calls|] else [] {
      IdsSnoc(calls, first, pid, call, other);
    }
    hide IdsOf;
  }

  ghost predicate SidesOk(m: Mapping) {
    (m.input.Some? ==> MappingOk(m.input.value)) && (m.output.Some? ==> MappingOk(m.output.value))
  }

  ghost predicate RefsKnown(refs: Option<seq<string>>, ids: set<string>) {
    refs.Some? ==> forall r :: r in refs.value ==> r in ids
  }

  /** An action's references are what its mapping makes of the call, and all of them are ids. */
  ghost predicate ActionOk(a: Action, m: Mapping, call: Call, t: Table, ids: set<string>, kind: string -> Kind) {
    && a.inputs == MappedRefs(m.input, call.args, t, kind) && MappedLooked(m.input, call.args, t, kind)
    && a.outputs == MappedRefs(m.output, call.args, t, kind) && MappedLooked(m.output, call.args, t, kind)
    && RefsKnown(a.inputs, ids) && RefsKnown(a.outputs, ids)
  }

  lemma {:induction false} ActionStable(a: Action, m: Mapping, call: Call, t: Table, ids: set<string>, t': Table,
      ids': set<string>, kind: string -> Kind)
    requires ActionOk(a, m, call, t, ids, kind) && Extends(t, t') && ids <= ids'
    ensures ActionOk(a, m, call, t', ids', kind)
  {
    hide MappedRefs, MappedLooked;
    MappedStable(m.input, call.args, t, t', kind);
    MappedStable(m.output, call.args, t, t', kind);
  }

  lemma {:induction false} RawStart(ty: string, args: map<string, string>)
    ensures Raw(map["type" := Text(ty)], ty, args)
  {}

  lemma {:induction false} GivenIn(args: map<string, string>, arg: string)
    requires Given(args, arg)
    ensures arg in args
  {}

  lemma {:induction false} MapEntriesStuck(o: Obj, entries: seq<Entry>, more: seq<Entry>, args: map<string, string>)
    requires MapEntries(o, entries, args).None?
    ensures MapEntries(o, entries + more, args).None?
    decreases |more|
  {
    if more == [] {
      assert entries + more == entries;
    } else {
      MapEntriesSnoc(o, entries, more[0], args);
      MapEntriesStuck(o, entries + [more[0]], more[1..], args);
      assert entries + more == entries + [more[0]] + more[1..];
    }
  }

  /** All references are ids, but for the pending ones. */
  ghost predicate RefsBut(o: Obj, ids: set<string>, pending: set<string>) {
    "child_refs" !in o && forall k :: k in o && IsRef(k) && k !in pending ==> o[k].Text? && o[k].s in ids
  }

  lemma {:induction false} RefsButAbsent(o: Obj, ids: set<string>, pending: set<string>, key: string)
    requires RefsBut(o, ids, pending + {key}) && key !in o
    ensures RefsBut(o, ids, pending)
  {}

  lemma {:induction false} RefsButSet(o: Obj, ids: set<string>, pending: set<string>, key: string, id: string)
    requires RefsBut(o, ids, pending + {key}) && id in ids && key != "child_refs"
    ensures RefsBut(o[key := Text(id)], ids, pending)
  {}

  /** What an address tells about the traffic changes no reference. */
  lemma {:induction false} HttpRefs(o: Obj, value: string, kind: string -> Kind, ids: set<string>, ids': set<string>,
      pending: set<string>)
    requires RefsBut(o, ids, pending) && ids <= ids'
    ensures match Addressed(value, kind)
      case None => true
      case Some((host, resource)) =>
        (match WithHttp(WithProtocols(o, value, kind), resource, host["value"])
         case None => true
         case Some(o') => RefsBut(o', ids', pending))
  {
    hide BeforeSlash, AfterSlash, Remove, StartsWith;
    if Addressed(value, kind).Some? {
      WithHttpRefs(WithProtocols(o, value, kind), Addressed(value, kind).value.1,
                   Addressed(value, kind).value.0["value"], ids', pending);
    }
  }

  lemma {:induction false} WithHttpRefs(o: Obj, resource: string, host: Value, ids: set<string>, pending: set<string>)
    requires RefsBut(o, ids, pending)
    ensures match WithHttp(o, resource, host)
      case None => true
      case Some(o') => RefsBut(o', ids, pending)
  {}

  lemma {:induction false} RawPlain(o: Obj, args: map<string, string>, ids: set<string>)
    requires "type" in o && o["type"].Text? && Raw(o, o["type"].s, args)
    requires o["type"].s != "network-traffic" && (o["type"].s == "process" ==> "filepath" !in args)
    ensures RefsIn(o, ids)
  {}

  lemma {:induction false} RawBinary(o: Obj, args: map<string, string>, id: string, ids: set<string>)
    requires Raw(o, "process", args) && id in ids
    ensures RefsIn(o["binary_ref" := Text(id)], ids)
  {}

  lemma {:induction false} RawTraffic(o: Obj, args: map<string, string>, ids: set<string>)
    requires Raw(o, "network-traffic", args)
    ensures RefsBut(o, ids, {"src_ref"} + {"dst_ref"})
  {}

  lemma {:induction false} ProtocolRefs(o: Obj, ids: set<string>)
    requires RefsBut(o, ids, {})
    ensures WithProtocolNames(o).Some? ==> RefsIn(WithProtocolNames(o).value, ids)
  {}

  lemma {:induction false} WithoutValueNameRefs(o: Obj, args: map<string, string>, ids: set<string>)
    requires RefsIn(o, ids)
    ensures WithoutValueName(o, args).Some? ==> RefsIn(WithoutValueName(o, args).value, ids)
  {
    hide Remove, Trim;
  }

  lemma {:induction false} FiledLookedIf(o: Obj, path: string, t: Table)
    requires NamesFile(o, path) && HasDirectory(path) ==> ParentDirectory(path) in t
    ensures FiledLooked(o, path, t)
  {}

  lemma {:induction false} NameOnlyRefs(path: string, ids: set<string>)
    ensures RefsIn(map["name" := Text(path)], ids)
  {}

  lemma {:induction false} BinarySortable(path: string, t: Table)
    ensures Sortable(BinaryObj(path, t))
  {
    hide NamesFile, HasDirectory, ParentDirectory, DirectoryObj, NotAName, LastPart, InOrder;
    PlainSortable(BinaryObj(path, t));
  }

  lemma {:induction false} HostPlain(host: string, ty: string)
    ensures var o: Obj := map["value" := Text(host), "type" := Text(ty)]; Sortable(o) && RefsIn(o, {})
  {}

  lemma {:induction false} GrownSame(i: nat, os: map<string, Obj>, t: Table)
    ensures Grown(i, os, t, i, os, t)
  {}

  lemma {:induction false} RefsPlain(o: Obj, k: string, v: Value, ids: set<string>)
    requires RefsIn(o, ids) && !IsRef(k) && k != "child_refs"
    ensures RefsIn(o[k := v], ids)
  {}

  lemma {:induction false} RefsSet(o: Obj, k: string, id: string, ids: set<string>)
    requires RefsIn(o, ids) && id in ids && k != "child_refs"
    ensures RefsIn(o[k := Text(id)], ids)
  {}

  lemma {:induction false} RefsDirectory(o: Obj, v: Value, ids: set<string>)
    requires RefsIn(o, ids)
    ensures RefsIn((o - {"name"})["type" := Text("directory")]["path" := v], ids)
  {}

  lemma {:induction false} GrownKeys(i: nat, os: map<string, Obj>, t: Table, i': nat, os': map<string, Obj>, t': Table)
    requires Grown(i, os, t, i', os', t')
    ensures os.Keys <= os'.Keys && t.Keys <= t'.Keys && forall o :: o in t ==> t'[o] == t[o]
  {}

  lemma {:induction false} DirectoryPlain(path: string)
    ensures Sortable(DirectoryObj(path)) && RefsIn(DirectoryObj(path), {})
  {}
}
