/** What the objects of a MAEC report say, property by property. */
module MaecFacts {
  import opened Wrappers
  import opened Strings
  import opened MaecObjects
  import opened Maec

  // ---- paths

  /** A path's last part is empty exactly if the path is, or ends in a separator. */
  lemma {:induction false} LastPartEmpty(path: string)
    ensures LastPart(path) == "" <==> path == "" || path[|path| - 1] in "\\/"
  {}

  /** A directory is the path without the separators at its end: backslashes if it has any at all,
      slashes otherwise. */
  lemma {:induction false} DirectoryIs(path: string)
    ensures var o := DirectoryObj(path);
      && o.Keys == {"type", "path"} && o["type"] == Text("directory") && o["path"].Text?
      && o["path"].s <= path
      && (forall i :: |o["path"].s| <= i < |path| ==> path[i] == if '\\' in path then '\\' else '/')
      && (o["path"].s != "" ==> o["path"].s[|o["path"].s| - 1] != if '\\' in path then '\\' else '/')
  {
    StripEndIs(path, "\\");
    StripEndIs(path, "/");
  }

  // ---- files

  /** The name under which a file with a path is stored: its own, unless that is a path or "null". */
  function StoredName(d: FileData): string
    requires d.path.Some?
  {
    if '\\' in d.name || '/' in d.name || d.name == "null" then LastPart(d.path.value) else d.name
  }

  /** A file object keeps the hashes, size, type and scans of its file. With a path that names it, it has
      the name and the directory the path gives; a path that is only a directory makes it one. */
  lemma {:induction false} FileTells(d: FileData, t: Table)
    ensures var o := FileObj(d, t);
      && "hashes" in o && o["hashes"] == d.hashes && "size" in o && o["size"] == d.size
      && (if d.mime.Some? then "mime_type" in o && o["mime_type"] == d.mime.value else "mime_type" !in o)
      && (if d.scans.Some? then "extensions" in o && o["extensions"] == d.scans.value else "extensions" !in o)
    ensures d.path.None? ==>
      var o := FileObj(d, t);
      && "type" in o && o["type"] == Text("file") && "name" in o && o["name"] == Text(d.name)
      && "parent_directory_ref" !in o && "path" !in o
    ensures d.path.Some? && (LastPart(d.path.value) != "" || d.path.value != d.name) ==>
      var o, path := FileObj(d, t), d.path.value;
      && "type" in o && o["type"] == Text("file") && "name" in o && o["name"] == Text(StoredName(d)) && "path" !in o
      && (if HasDirectory(path)
          then "parent_directory_ref" in o && o["parent_directory_ref"] == Text(IdOf(t, ParentDirectory(path)))
          else "parent_directory_ref" !in o)
    ensures d.path.Some? && LastPart(d.path.value) == "" && d.path.value == d.name ==>
      var o := FileObj(d, t);
      && "type" in o && o["type"] == Text("directory") && "name" !in o && "parent_directory_ref" !in o
      && "path" in o && o["path"] == DirectoryObj(d.path.value)["path"]
  {
    hide LastPart, HasDirectory, DirectoryObj, ParentDirectory, IdOf;
  }

  // ---- processes

  /** A process object holds what is known of the process and nothing else. */
  lemma {:induction false} ProcessTells(p: Process)
    ensures var o := ProcessObj(p);
      && "type" in o && o["type"] == Text("process")
      && (if p.pidField.Some? then "pid" in o && o["pid"] == Text(p.pidField.value) else "pid" !in o)
      && (if p.name.Some? then "name" in o && o["name"] == Text(p.name.value) else "name" !in o)
      && (if p.commandLine.Some? then "command_line" in o && o["command_line"] == Text(p.commandLine.value)
          else "command_line" !in o)
      && (if p.created.Some? then "created" in o && o["created"] == Text(p.created.value) else "created" !in o)
      && o.Keys <= {"type", "pid", "name", "command_line", "created"}
  {}

  /** Two processes become one object exactly when they agree in all of it. */
  lemma {:induction false} SameObjectIff(p: Process, q: Process)
    ensures ProcessObj(p) == ProcessObj(q) <==>
      p.pidField == q.pidField && p.name == q.name && p.commandLine == q.commandLine && p.created == q.created
  {
    ProcessTells(p);
    ProcessTells(q);
    if p.pidField == q.pidField && p.name == q.name && p.commandLine == q.commandLine && p.created == q.created {
    } else {
      hide ProcessObj;
    }
  }

  lemma {:induction false} ChildrenAre(processes: seq<Process>, pid: string, x: string)
    ensures x in ChildrenOf(processes, pid) <==>
      exists i :: 0 <= i < |processes| && processes[i].parent == pid && processes[i].pid == x
  {
    if processes != [] {
      var n := |processes| - 1;
      ChildrenAre(processes[..n], pid, x);
      assert forall i :: 0 <= i < n ==> processes[..n][i] == processes[i];
    }
  }

  lemma {:induction false} HasPidIff(processes: seq<Process>, pid: string)
    ensures HasPid(processes, pid) <==> exists i :: 0 <= i < |processes| && processes[i].pid == pid
  {
    if processes != [] {
      var n := |processes| - 1;
      HasPidIff(processes[..n], pid);
      assert forall i :: 0 <= i < n ==> processes[..n][i] == processes[i];
    }
  }

  /** In the finished tree a process's object refers to its parent's object exactly if the parent is listed,
      and to its children's, in list order, exactly if it has any; for the rest it is as it was. */
  lemma {:induction false} TreeTells(processes: seq<Process>, p: Process, pids: map<string, string>,
      objects: map<string, Obj>, t: Table)
    requires PidsOk(processes, pids, t) && TreeObject(processes, p, pids, objects)
    ensures p.pid in pids && pids[p.pid] in objects
    ensures var o := objects[pids[p.pid]];
      && (forall k :: k in ProcessObj(p) ==> k in o && o[k] == ProcessObj(p)[k])
      && ("parent_ref" in o <==> HasPid(processes, p.parent))
      && ("parent_ref" in o ==> p.parent in pids && o["parent_ref"] == Text(pids[p.parent]))
      && ("child_refs" in o <==> ChildrenOf(processes, p.pid) != [])
    ensures var o, kids := objects[pids[p.pid]], ChildrenOf(processes, p.pid);
      "child_refs" in o ==>
        && o["child_refs"].List? && |o["child_refs"].items| == |kids|
        && forall k :: 0 <= k < |kids| ==> kids[k] in pids && o["child_refs"].items[k] == Text(pids[kids[k]])
  {
    ProcessTells(p);
    forall x | x in ChildrenOf(processes, p.pid) ensures x in pids {
      ChildrenAre(processes, p.pid, x);
      HasPidIff(processes, x);
    }
    hide ProcessObj, HasPid, ChildrenOf, FirstWith;
  }

  // ---- network traffic

  lemma {:induction false} SlashSplit(host: string, rest: string)
    requires '/' !in host
    ensures BeforeSlash(host + "/" + rest) == host && AfterSlash(host + "/" + rest) == Some(rest)
    ensures BeforeSlash(host) == host && AfterSlash(host) == None
  {
    var s := host + "/" + rest;
    if host == [] {
      assert s[1..] == rest;
    } else {
      SlashSplit(host[1..], rest);
      assert s[1..] == host[1..] + "/" + rest && s[0] == host[0];
    }
  }

  lemma {:induction false} SchemeOff(scheme: string, rest: string)
    requires scheme != [] && !Contains(rest, scheme)
    ensures Remove(scheme + rest, scheme) == rest
  {
    var s := scheme + rest;
    assert s[0..] == s && scheme <= s && s[|scheme|..] == rest;
    RemoveFirst(s, scheme, 0);
    RemoveNone(rest, scheme);
    hide Remove, Contains;
    assert s[..0] + rest == rest;
  }

  /** An http URL is filed under its host and asks for what follows the first slash; without a slash behind
      the host there is no object. An ftp URL is filed under its host. */
  lemma {:induction false} UrlAddressed(host: string, rest: string, kind: string -> Kind)
    requires '/' !in host
    ensures !Contains(host + "/" + rest, "http://") ==>
      Addressed("http://" + (host + "/" + rest), kind) == Some((HostObj(host), rest))
    ensures Addressed("http://" + host, kind) == None
    ensures !Contains(host + "/" + rest, "ftp://") ==>
      Addressed("ftp://" + (host + "/" + rest), kind) == Some((HostObj(host), ""))
  {
    SlashSplit(host, rest);
    if !Contains(host + "/" + rest, "http://") {
      SchemeOff("http://", host + "/" + rest);
    }
    NoSlashInside(host);
    SchemeOff("http://", host);
    if !Contains(host + "/" + rest, "ftp://") {
      SchemeOff("ftp://", host + "/" + rest);
      assert ("ftp://" + (host + "/" + rest))[0] == 'f';
    }
    hide Contains, Remove, BeforeSlash, AfterSlash;
  }

  lemma {:induction false} NoSlashInside(host: string)
    requires '/' !in host
    ensures !Contains(host, "http://")
  {
    ContainsIff(host, "http://");
    forall a, b ensures host != a + "http://" + b {
      assert (a + "http://" + b)[|a| + 5] == '/';
    }
  }

  /** Anything else is filed under itself, as what it is recognised to be. */
  lemma {:induction false} BareAddressed(value: string, kind: string -> Kind)
    requires !StartsWith(value, "http://") && !StartsWith(value, "https://") && !StartsWith(value, "ftp://")
    ensures Addressed(value, kind).Some?
    ensures var (o, resource) := Addressed(value, kind).value;
      && resource == "" && o.Keys == {"type", "value"} && o["value"] == Text(value)
      && (o["type"] == Text("ipv6-addr") <==> kind(value) == Ipv6)
      && (o["type"] == Text("mac-addr") <==> kind(value) == Mac)
      && (o["type"] == Text("ipv4-addr") <==> kind(value) == Ipv4)
      && (o["type"] == Text("domain-name") <==> kind(value) == Domain)
  {}

  /** The resource of an http URL goes into the traffic object as a GET request to the host, and http among
      its protocols; the rest of the object, and of its extensions, stays. */
  lemma {:induction false} HttpTells(o: Obj, resource: string, host: Value)
    requires WithHttp(o, resource, host).Some?
    ensures resource == "" ==> WithHttp(o, resource, host).value == o
    ensures resource != "" ==>
      var o' := WithHttp(o, resource, host).value;
      && "extensions" in o' && o'["extensions"].Dict? && "http-request-ext" in o'["extensions"].m
      && o'["extensions"].m["http-request-ext"] ==
           Dict(map["request_method" := Text("GET"), "request_value" := Text(resource),
                    "request_header" := Dict(map["Host" := host])])
      && "protocols" in o'
      && (o'["protocols"].List? ==> Text("http") in o'["protocols"].items)
      && ("protocols" in o && o["protocols"].List? ==>
            o'["protocols"].List? && o["protocols"].items <= o'["protocols"].items)
      && ("protocols" !in o ==> o'["protocols"] == List([Text("http")]))
      && (forall k :: k in o && k != "protocols" && k != "extensions" ==> k in o' && o'[k] == o[k])
      && ("extensions" in o && o["extensions"].Dict? ==>
            forall k :: k in o["extensions"].m && k != "http-request-ext" ==>
              k in o'["extensions"].m && o'["extensions"].m[k] == o["extensions"].m[k])
  {}

  /** Numbers for protocols become names: 1 is ftp, 3 is http, everything else stays. */
  lemma {:induction false} ProtocolsNamed(vs: seq<Value>)
    ensures |ProtocolNames(vs)| == |vs|
    ensures forall i :: 0 <= i < |vs| ==>
      ProtocolNames(vs)[i] == match vs[i]
        case Text(s) => (match s case "1" => Text("ftp") case "3" => Text("http") case _ => vs[i])
        case _ => vs[i]
  {
    if vs != [] {
      ProtocolsNamed(vs[1..]);
      forall i | 0 <= i < |vs| ensures ProtocolNames(vs)[i] == ProtocolName(vs[i]) {
        if i > 0 { NamedAt(vs, i); }
      }
    }
  }

  lemma {:induction false} NamedAt(vs: seq<Value>, i: nat)
    requires i < |vs|
    ensures |ProtocolNames(vs)| == |vs| && ProtocolNames(vs)[i] == ProtocolName(vs[i])
  {
    if vs != [] {
      if i > 0 {
        NamedAt(vs[1..], i - 1);
      } else if |vs| > 1 {
        NamedAt(vs[1..], 0);
      }
    }
  }

  // ---- arguments

  /** The property stands in the dictionary: under its name, or in the first dictionary of its list. */
  ghost predicate Holds(m: map<string, Value>, p: Property, v: Value) {
    match p
    case Plain(name) => name in m && m[name] == v
    case Within(list, name) =>
      && list in m && m[list].List? && m[list].items != [] && m[list].items[0].Dict?
      && name in m[list].items[0].m && m[list].items[0].m[name] == v
  }

  function KeyOf(p: Property): string {
    match p
    case Plain(name) => name
    case Within(list, _) => list
  }

  /** A property that is set stands there, and nothing else changes: no other key, no other element of its
      list and no other entry of the list's first. It cannot be set exactly if what stands under the name
      of its list is not a list that begins with a dictionary. */
  lemma {:induction false} SetTells(m: map<string, Value>, p: Property, v: Value)
    ensures SetProperty(m, p, v).None? <==>
      && p.Within? && p.list in m
      && !(m[p.list].List? && m[p.list].items != [] && m[p.list].items[0].Dict?)
    ensures SetProperty(m, p, v).Some? ==>
      var m' := SetProperty(m, p, v).value;
      && Holds(m', p, v) && m'.Keys == m.Keys + {KeyOf(p)}
      && (forall k :: k in m && k != KeyOf(p) ==> m'[k] == m[k])
      && (p.Within? && p.list in m ==>
            && m'[p.list].items[1..] == m[p.list].items[1..]
            && forall k :: k in m[p.list].items[0].m && k != p.name ==>
                 k in m'[p.list].items[0].m && m'[p.list].items[0].m[k] == m[p.list].items[0].m[k])
  {}

  /** An argument mapped to a property sets it in the object, or in the extension it is mapped to, and
      leaves all other keys and all other extensions as they are. */
  lemma {:induction false} MapTells(o: Obj, e: Entry, v: Value)
    requires MapProperty(o, e, v).Some?
    ensures var o' := MapProperty(o, e, v).value;
      match e.extension
      case None => Holds(o', e.property, v) && forall k :: k in o && k != KeyOf(e.property) ==> k in o' && o'[k] == o[k]
      case Some(ext) =>
        && "extensions" in o' && o'["extensions"].Dict? && ext in o'["extensions"].m && o'["extensions"].m[ext].Dict?
        && Holds(o'["extensions"].m[ext].m, e.property, v)
        && (forall k :: k in o && k != "extensions" ==> k in o' && o'[k] == o[k])
        && ("extensions" in o && o["extensions"].Dict? ==>
              forall k :: k in o["extensions"].m && k != ext ==>
                k in o'["extensions"].m && o'["extensions"].m[k] == o["extensions"].m[k])
  {
    hide SetProperty, Holds, KeyOf;
    match e.extension
    case None => SetTells(o, e.property, v);
    case Some(ext) =>
      var exts := if "extensions" in o then o["extensions"] else Dict(map[]);
      var inner := if ext in exts.m then exts.m[ext] else Dict(map[]);
      SetTells(inner.m, e.property, v);
  }

  /** Arguments that are missing or empty set nothing. */
  lemma {:induction false} NothingMapped(o: Obj, entries: seq<Entry>, args: map<string, string>)
    requires forall e :: e in entries ==> e.arg !in args || args[e.arg] == ""
    ensures MapEntries(o, entries, args) == Some(o)
    decreases |entries|
  {
    if entries != [] {
      assert entries[0] in entries;
      NothingMapped(o, entries[1..], args);
    }
  }

  /** One that is there and not empty sets its property in what the entries before it made. */
  lemma {:induction false} OneMapped(o: Obj, entries: seq<Entry>, e: Entry, args: map<string, string>)
    requires MapEntries(o, entries + [e], args).Some? && e.arg in args && args[e.arg] != ""
    ensures MapEntries(o, entries, args).Some?
    ensures MapEntries(o, entries + [e], args)
      == MapProperty(MapEntries(o, entries, args).value, e, Text(args[e.arg]))
  {
    MapEntriesSnoc(o, entries, e, args);
  }

  /** The key of a registry value ends before the name of the value, if that stands at its end and nowhere
      else, and the white space before it goes as well. */
  lemma {:induction false} KeyWithoutName(o: Obj, args: map<string, string>, base: string, name: string)
    requires "regkey" in args && "values" in o && "key" in o && o["key"] == Text(base + "\\" + name)
    requires if "regkey_r" in args then args["regkey_r"] == name else "key_name" in args && args["key_name"] == name
    requires FirstAt(base + "\\" + name, "\\" + name, |base|)
    ensures WithoutValueName(o, args) == Some(o["key" := Text(Trim(base))])
    ensures base != "" && !Space(base[|base| - 1]) ==> Trim(base) == base
  {
    var key, part := base + "\\" + name, "\\" + name;
    RemoveFirst(key, part, |base|);
    assert key[|base| + |part|..] == "" && key[..|base|] == base;
    assert Remove("", part) == "";
    hide Remove, FirstAt, Trim;
    assert base + "" == base;
  }

  // ---- software

  /** The tool is the sandbox in its version, the machine is named by its manager. */
  lemma {:induction false} SoftwareTells(version: string, manager: string)
    ensures ToolObj(version).Keys == {"type", "name", "version"} && ToolObj(version)["type"] == Text("software")
    ensures ToolObj(version)["name"] == Text("Cuckoo Sandbox") && ToolObj(version)["version"] == Text(version)
    ensures MachineObj(manager).Keys == {"type", "name"} && MachineObj(manager)["type"] == Text("software")
    ensures MachineObj(manager)["name"] == Text(manager)
    ensures ToolObj(version) != MachineObj(manager)
  {
    assert "version" in ToolObj(version) && "version" !in MachineObj(manager);
  }
}
