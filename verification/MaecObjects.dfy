/** The cyber-observable objects of a MAEC report (modules/reporting/maec5.py), as plain values. */
module MaecObjects {
  import opened Wrappers
  import opened Strings

  datatype Value = Text(s: string) | List(items: seq<Value>) | Dict(m: map<string, Value>) | Null

  type Obj = map<string, Value>

  // ---- references

  /** The properties that hold the id of another object. */
  predicate IsRef(key: string) {
    key == "parent_directory_ref" || key == "binary_ref" || key == "src_ref" || key == "dst_ref" || key == "parent_ref"
  }

  /** Every reference in an object is one of the ids. */
  ghost predicate RefsIn(o: Obj, ids: set<string>) {
    && (forall k :: k in o && IsRef(k) ==> o[k].Text? && o[k].s in ids)
    && ("child_refs" in o ==>
          o["child_refs"].List? && forall v :: v in o["child_refs"].items ==> v.Text? && v.s in ids)
  }

  /** The table of objects already stored. */
  type Table = map<Obj, string>

  function IdOf(t: Table, o: Obj): string {
    if o in t then t[o] else ""
  }

  // ---- files and directories

  predicate Separator(c: char) {
    c == '\\' || c == '/'
  }

  /** re.split(r"\\|/", path)[-1] */
  function LastPart(path: string): string {
    if path == [] || Separator(path[|path| - 1]) then [] else LastPart(path[..|path| - 1]) + [path[|path| - 1]]
  }

  /** Stripping the characters of the file name strips the file name, and nothing more. */
  lemma {:induction false} StripFileName(path: string)
    ensures var name := LastPart(path);
      |name| <= |path| && path == path[..|path| - |name|] + name
      && StripEnd(path, name) == path[..|path| - |name|]
      && forall c :: c in name ==> !Separator(c)
  {
    var name := LastPart(path);
    LastPartEnds(path);
    StripWithin(path, name, name);
  }

  lemma {:induction false} LastPartEnds(path: string)
    ensures var name := LastPart(path);
      |name| <= |path| && path == path[..|path| - |name|] + name
      && (forall c :: c in name ==> !Separator(c))
      && (|name| < |path| ==> Separator(path[|path| - |name| - 1]))
  {
    if path != [] && !Separator(path[|path| - 1]) {
      LastPartEnds(path[..|path| - 1]);
    }
  }

  lemma {:induction false} StripWithin(path: string, name: string, chars: string)
    requires |name| <= |path| && path == path[..|path| - |name|] + name
    requires forall c :: c in name ==> c in chars
    requires |name| < |path| ==> path[|path| - |name| - 1] !in chars
    ensures StripEnd(path, chars) == path[..|path| - |name|]
  {
    if name != [] {
      var shorter, rest := path[..|path| - 1], name[..|name| - 1];
      assert path[|path| - 1] == name[|name| - 1];
      assert shorter == shorter[..|shorter| - |rest|] + rest;
      StripWithin(shorter, rest, chars);
      assert shorter[..|shorter| - |rest|] == path[..|path| - |name|];
    } else {
      assert path[..|path|] == path;
    }
  }

  function DirectoryObj(path: string): Obj {
    var p := if '\\' in path then StripEnd(path, "\\") else if '/' in path then StripEnd(path, "/") else path;
    map["type" := Text("directory"), "path" := Text(p)]
  }

  /** "\\" in v, "/" in v or v == "null", for whatever v is. */
  predicate NotAName(v: Value) {
    match v
    case Text(s) => s == "null" || '\\' in s || '/' in s
    case List(items) => Text("\\") in items || Text("/") in items
    case Dict(m) => "\\" in m || "/" in m
    case Null => false
  }

  /** A path that names a file, not only a directory. */
  predicate NamesFile(o: Obj, path: string) {
    LastPart(path) != "" || !("name" in o && o["name"] == Text(path))
  }

  function ParentDirectory(path: string): Obj {
    DirectoryObj(StripEnd(path, LastPart(path)))
  }

  predicate HasDirectory(path: string) {
    ParentDirectory(path)["path"] != Text("")
  }

  /** The file object once its directory has been split off and stored. */
  function Filed(o: Obj, path: string, t: Table): Obj {
    if NamesFile(o, path) then
      var named := if "name" !in o || NotAName(o["name"]) then o["name" := Text(LastPart(path))] else o;
      if HasDirectory(path) then named["parent_directory_ref" := Text(IdOf(t, ParentDirectory(path)))] else named
    else
      (o - {"name"})["type" := Text("directory")]["path" := DirectoryObj(path)["path"]]
  }

  // ---- network addresses

  datatype Kind = Ipv6 | Mac | Ipv4 | Domain

  predicate StartsWith(s: string, prefix: string) {
    prefix <= s
  }

  function BeforeSlash(s: string): string {
    if s == [] || s[0] == '/' then [] else [s[0]] + BeforeSlash(s[1..])
  }

  /** What follows the first slash, if there is one. */
  function AfterSlash(s: string): Option<string> {
    if s == [] then None else if s[0] == '/' then Some(s[1..]) else AfterSlash(s[1..])
  }

  /** The network object for an address, and the HTTP resource named by it; None if the address has
      no part to split off. */
  function Addressed(value: string, kind: string -> Kind): Option<(Obj, string)> {
    if StartsWith(value, "http://") then
      var rest := Remove(value, "http://");
      if AfterSlash(rest).None? then None else Some((HostObj(BeforeSlash(rest)), AfterSlash(rest).value))
    else if StartsWith(value, "ftp://") then
      Some((HostObj(BeforeSlash(Remove(value, "ftp://"))), ""))
    else if StartsWith(value, "https://") then
      var rest := Remove(value, "htps://");
      if AfterSlash(rest).None? then None else Some((HostObj(BeforeSlash(rest)), AfterSlash(rest).value))
    else
      var named := match kind(value)
        case Ipv6 => "ipv6-addr"
        case Mac => "mac-addr"
        case Ipv4 => "ipv4-addr"
        case Domain => "domain-name";
      Some((map["value" := Text(value), "type" := Text(named)], ""))
  }

  function HostObj(host: string): Obj {
    map["value" := Text(host), "type" := Text("domain-name")]
  }

  /** The protocols that recognising a bare address writes into the traffic object. */
  function WithProtocols(o: Obj, value: string, kind: string -> Kind): Obj {
    if StartsWith(value, "http://") || StartsWith(value, "ftp://") || StartsWith(value, "https://") then o
    else match kind(value)
      case Ipv6 => o["protocols" := List([Text("ipv6"), Text("tcp")])]
      case Ipv4 => o["protocols" := List([Text("ipv4"), Text("tcp")])]
      case _ => o
  }

  /** HTTP data in the traffic object; None where the properties have a shape that cannot take it. */
  function WithHttp(o: Obj, resource: string, host: Value): Option<Obj> {
    if resource == "" then Some(o)
    else
      var protocols :=
        if "protocols" !in o then Some(List([Text("http")]))
        else match o["protocols"]
          case List(items) => Some(List(if Text("http") in items then items else items + [Text("http")]))
          case Text(s) => if Contains(s, "http") then Some(Text(s)) else None
          case Dict(m) => if "http" in m then Some(Dict(m)) else None
          case Null => None;
      var request := Dict(map["request_method" := Text("GET"), "request_value" := Text(resource),
                              "request_header" := Dict(map["Host" := host])]);
      if protocols.None? then None
      else
        var o' := o["protocols" := protocols.value];
        if "extensions" !in o' then Some(o'["extensions" := Dict(map["http-request-ext" := request])])
        else if o'["extensions"].Dict? then
          Some(o'["extensions" := Dict(o'["extensions"].m["http-request-ext" := request])])
        else None
  }

  /** Every https URL is filed under the same host: the scheme prefix taken off is misspelt, so what
      comes before the first slash is "https:". */
  lemma {:induction false} HttpsHost(value: string, kind: string -> Kind)
    requires StartsWith(value, "https://")
    ensures Addressed(value, kind).Some? && Addressed(value, kind).value.0 == HostObj("https:")
    ensures !Contains(value, "htps://") ==> Addressed(value, kind).value.1 == value[7..]
  {
    var rest := Remove(value, "htps://");
    HttpsKept(value);
    assert value[0] == 'h' && value[4] == 's';
    assert "http://"[4] == ':' && "ftp://"[0] == 'f';
    HostEnds(rest);
    if !Contains(value, "htps://") {
      RemoveNone(value, "htps://");
    }
  }

  lemma {:induction false} HttpsKept(value: string)
    requires "https://" <= value
    ensures var rest := Remove(value, "htps://"); |rest| > 6 && rest[..6] == "https:" && rest[6] == '/'
  {
    assert value[0] == 'h' && value[1] == 't' && value[2] == 't' && value[3] == 'p' && value[4] == 's'
        && value[5] == ':' && value[6] == '/' && value[7] == '/';
    RemoveAt(value, 0);
    RemoveAt(value, 1);
    RemoveAt(value, 2);
    RemoveAt(value, 3);
    RemoveAt(value, 4);
    RemoveAt(value, 5);
    RemoveAt(value, 6);
    assert value[0..] == value;
    hide Remove;
    var rest := Remove(value, "htps://");
    assert rest[0] == 'h' && rest[1] == 't' && rest[2] == 't' && rest[3] == 'p' && rest[4] == 's' && rest[5] == ':';
    assert rest[..6] == [rest[0], rest[1], rest[2], rest[3], rest[4], rest[5]];
  }

  lemma {:induction false} RemoveAt(s: string, i: nat)
    requires i < |s| && (s[i] != 'h' || (i + 2 < |s| && s[i + 2] != 'p'))
    ensures Remove(s[i..], "htps://") == [s[i]] + Remove(s[i + 1..], "htps://")
  {
    assert s[i..][0] == s[i] && s[i..][1..] == s[i + 1..];
    assert |s[i..]| > 2 ==> s[i..][2] == s[i + 2];
  }

  lemma {:induction false} HostEnds(s: string)
    requires |s| > 6 && s[..6] == "https:" && s[6] == '/'
    ensures BeforeSlash(s) == "https:" && AfterSlash(s) == Some(s[7..])
  {
    HostStep(s, 0);
  }

  lemma {:induction false} HostStep(s: string, i: nat)
    requires i <= 6 < |s| && s[..6] == "https:" && s[6] == '/'
    ensures BeforeSlash(s[i..]) == s[i..6] && AfterSlash(s[i..]) == Some(s[7..])
    decreases 6 - i
  {
    if i < 6 {
      HostStep(s, i + 1);
      assert s[i] == "https:"[i];
      assert s[i..][1..] == s[i + 1..] && [s[i]] + s[i + 1..6] == s[i..6];
      assert s[0..6] == "https:";
      NoSlash(i);
    } else {
      assert s[6..][1..] == s[7..];
    }
  }

  lemma {:induction false} NoSlash(i: nat)
    requires i < 6
    ensures "https:"[i] != '/'
  {}

  // ---- mapping an API call's arguments

  /** A property as the mapping file names it: by one name, or by "list/name". */
  datatype Property = Plain(name: string) | Within(list: string, name: string)

  datatype Entry = Entry(property: Property, extension: Option<string>, arg: string)

  datatype ObjectMapping = ObjectMapping(objectType: string, entries: seq<Entry>)

  /** Sets a property in a dictionary; None if what is there already has another shape. */
  function SetProperty(m: map<string, Value>, p: Property, v: Value): Option<map<string, Value>> {
    match p
    case Plain(name) => Some(m[name := v])
    case Within(list, name) =>
      if list !in m then Some(m[list := List([Dict(map[name := v])])])
      else match m[list]
        case List(items) =>
          if items != [] && items[0].Dict? then
            Some(m[list := List([Dict(items[0].m[name := v])] + items[1..])])
          else None
        case _ => None
  }

  function MapProperty(o: Obj, e: Entry, v: Value): Option<Obj> {
    match e.extension
    case None => SetProperty(o, e.property, v)
    case Some(ext) =>
      var exts := if "extensions" in o then o["extensions"] else Dict(map[]);
      if !exts.Dict? then None
      else
        var inner := if ext in exts.m then exts.m[ext] else Dict(map[]);
        if !inner.Dict? then None
        else match SetProperty(inner.m, e.property, v)
          case None => None
          case Some(m) => Some(o["extensions" := Dict(exts.m[ext := Dict(m)])])
  }

  /** An argument that is there and not empty. */
  predicate Given(args: map<string, string>, arg: string) {
    arg in args && args[arg] != ""
  }

  function MapEntries(o: Obj, entries: seq<Entry>, args: map<string, string>): Option<Obj>
    decreases |entries|
  {
    if entries == [] then Some(o)
    else if !Given(args, entries[0].arg) then MapEntries(o, entries[1..], args)
    else match MapProperty(o, entries[0], Text(args[entries[0].arg]))
      case None => None
      case Some(o') => MapEntries(o', entries[1..], args)
  }

  lemma {:induction false} MapEntriesSnoc(o: Obj, entries: seq<Entry>, e: Entry, args: map<string, string>)
    ensures MapEntries(o, entries + [e], args) == (match MapEntries(o, entries, args)
      case None => None
      case Some(o') => if Given(args, e.arg) then MapProperty(o', e, Text(args[e.arg])) else Some(o'))
    decreases |entries|
  {
    hide MapProperty;
    if entries == [] {
      assert entries + [e] == [e] && [e][1..] == [];
    } else {
      assert (entries + [e])[1..] == entries[1..] + [e] && (entries + [e])[0] == entries[0];
      if !Given(args, entries[0].arg) {
        MapEntriesSnoc(o, entries[1..], e, args);
      } else {
        var o' := MapProperty(o, entries[0], Text(args[entries[0].arg]));
        if o'.Some? {
          MapEntriesSnoc(o'.value, entries[1..], e, args);
        }
      }
    }
  }

  /** What the mapping file does with references: only a process's binary_ref, from the argument
      filepath, and a network-traffic object's dst_ref and src_ref. */
  predicate EntryOk(objectType: string, e: Entry) {
    e.extension.Some? ||
    match e.property
    case Within(list, name) => !IsRef(list) && list != "child_refs" && list != "type"
    case Plain(name) =>
      && name != "child_refs" && name != "type"
      && (IsRef(name) ==>
            || (objectType == "process" && name == "binary_ref" && e.arg == "filepath")
            || (objectType == "network-traffic" && (name == "dst_ref" || name == "src_ref")))
  }

  predicate MappingOk(m: ObjectMapping) {
    forall e :: e in m.entries ==> EntryOk(m.objectType, e)
  }

  /** An object as the mapping leaves it: the only references are raw ones that are replaced next. */
  ghost predicate Raw(o: Obj, objectType: string, args: map<string, string>) {
    && "type" in o && o["type"] == Text(objectType) && "child_refs" !in o
    && forall k :: k in o && IsRef(k) ==>
         || (objectType == "process" && k == "binary_ref" && "filepath" in args)
         || (objectType == "network-traffic" && (k == "dst_ref" || k == "src_ref"))
  }

  lemma {:induction false} RawStep(o: Obj, objectType: string, e: Entry, args: map<string, string>, v: Value)
    requires Raw(o, objectType, args) && EntryOk(objectType, e) && Given(args, e.arg)
    requires MapProperty(o, e, v).Some?
    ensures Raw(MapProperty(o, e, v).value, objectType, args)
  {}

  // ---- registry keys and traffic

  /** rstrip(), which takes white space. */
  function Trim(s: string): string {
    StripEnd(s, WHITESPACE)
  }

  /** A registry value's key without the value's own name. */
  function WithoutValueName(o: Obj, args: map<string, string>): Option<Obj> {
    var name :=
      if "regkey" in args && "regkey_r" in args && "values" in o then Some(args["regkey_r"])
      else if "regkey" in args && "key_name" in args && "values" in o then Some(args["key_name"])
      else None;
    if name.None? then Some(o)
    else if "key" in o && o["key"].Text? then
      Some(o["key" := Text(Trim(Remove(o["key"].s, "\\" + name.value)))])
    else None
  }

  function ProtocolName(v: Value): Value {
    if v == Text("1") then Text("ftp") else if v == Text("3") then Text("http") else v
  }

  function ProtocolNames(vs: seq<Value>): seq<Value> {
    if vs == [] then [] else [ProtocolName(vs[0])] + ProtocolNames(vs[1..])
  }

  function WithProtocolNames(o: Obj): Option<Obj> {
    if "protocols" !in o then Some(o)
    else match o["protocols"]
      case Text(s) => Some(o["protocols" := List(ProtocolNames([Text(s)]))])
      case List(items) =>
        if forall v :: v in items ==> v.Text? then Some(o["protocols" := List(ProtocolNames(items))]) else None
      case _ => None
  }

  // ---- what is stored in the end

  /** The address in dst_ref or src_ref replaced by the id of its object. */
  function NetRef(o: Obj, key: string, t: Table, kind: string -> Kind): Option<Obj> {
    if key !in o then Some(o)
    else if !o[key].Text? then None
    else match Addressed(o[key].s, kind)
      case None => None
      case Some((host, resource)) =>
        match WithHttp(WithProtocols(o, o[key].s, kind), resource, host["value"])
        case None => None
        case Some(o') => Some(o'[key := Text(IdOf(t, host))])
  }

  function BinaryObj(path: string, t: Table): Obj {
    Filed(map["name" := Text(path)], path, t)
  }

  /** The object that post-processing stores, with ids taken from the table; None where it raises. */
  function Processed(o: Obj, args: map<string, string>, t: Table, kind: string -> Kind): Option<Obj>
    requires "type" in o
  {
    var ty := o["type"];
    if ty == Text("file") then
      if "name" in o && o["name"].Text? then Some(Filed(o, o["name"].s, t)) else None
    else if ty == Text("windows-registry-key") then WithoutValueName(o, args)
    else if ty == Text("process") then
      if "filepath" in args then Some(o["binary_ref" := Text(IdOf(t, BinaryObj(args["filepath"], t)))]) else Some(o)
    else if ty == Text("network-traffic") then
      match NetRef(o, "dst_ref", t, kind)
      case None => None
      case Some(o1) =>
        match NetRef(o1, "src_ref", t, kind)
        case None => None
        case Some(o2) => WithProtocolNames(o2)
    else Some(o)
  }

  // ---- looking ids up in a growing table

  ghost predicate Extends(t: Table, t': Table) {
    forall o :: o in t ==> o in t' && t'[o] == t[o]
  }

  /** The directory's id is in the table, if there is a directory to look up. */
  ghost predicate FiledLooked(o: Obj, path: string, t: Table) {
    NamesFile(o, path) && HasDirectory(path) ==> ParentDirectory(path) in t
  }

  ghost predicate NetLooked(o: Obj, key: string, t: Table, kind: string -> Kind) {
    key in o && o[key].Text? ==>
      match Addressed(o[key].s, kind)
      case None => true
      case Some((host, resource)) =>
        WithHttp(WithProtocols(o, o[key].s, kind), resource, host["value"]).Some? ==> host in t
  }

  /** Every id that post-processing looks up is in the table. */
  ghost predicate Looked(o: Obj, args: map<string, string>, t: Table, kind: string -> Kind)
    requires "type" in o
  {
    var ty := o["type"];
    if ty == Text("file") then "name" in o && o["name"].Text? ==> FiledLooked(o, o["name"].s, t)
    else if ty == Text("process") then
      "filepath" in args ==>
        FiledLooked(map["name" := Text(args["filepath"])], args["filepath"], t) && BinaryObj(args["filepath"], t) in t
    else if ty == Text("network-traffic") then
      && NetLooked(o, "dst_ref", t, kind)
      && (NetRef(o, "dst_ref", t, kind).Some? ==> NetLooked(NetRef(o, "dst_ref", t, kind).value, "src_ref", t, kind))
    else true
  }

  lemma {:induction false} FiledStable(o: Obj, path: string, t: Table, t': Table)
    requires FiledLooked(o, path, t) && Extends(t, t')
    ensures FiledLooked(o, path, t') && Filed(o, path, t') == Filed(o, path, t)
  {
    hide NamesFile, HasDirectory, ParentDirectory, DirectoryObj, NotAName, LastPart;
  }

  lemma {:induction false} NetStable(o: Obj, key: string, t: Table, t': Table, kind: string -> Kind)
    requires NetLooked(o, key, t, kind) && Extends(t, t')
    ensures NetLooked(o, key, t', kind) && NetRef(o, key, t', kind) == NetRef(o, key, t, kind)
  {
    hide WithHttp, WithProtocols;
  }

  /** Ids are permanent: a bigger table gives the same processed object. */
  lemma {:induction false} ProcessedStable(o: Obj, args: map<string, string>, t: Table, t': Table, kind: string -> Kind)
    requires "type" in o && Looked(o, args, t, kind) && Extends(t, t')
    ensures Looked(o, args, t', kind) && Processed(o, args, t', kind) == Processed(o, args, t, kind)
  {
    hide NetRef, NetLooked, Filed, FiledLooked, WithoutValueName, WithProtocolNames;
    var ty := o["type"];
    if ty == Text("file") {
      if "name" in o && o["name"].Text? { FiledStable(o, o["name"].s, t, t'); }
    } else if ty == Text("process") {
      if "filepath" in args {
        FiledStable(map["name" := Text(args["filepath"])], args["filepath"], t, t');
      }
    } else if ty == Text("network-traffic") {
      NetStable(o, "dst_ref", t, t', kind);
      var o1 := NetRef(o, "dst_ref", t, kind);
      if o1.Some? {
        NetStable(o1.value, "src_ref", t, t', kind);
      }
    }
  }

  // ---- the sort order

  /** The keys sort_dict knows; any other key makes it raise. */
  predicate InOrder(k: string) {
    || k == "id" || k == "type" || k == "name" || k == "value" || k == "hashes" || k == "path" || k == "size"
    || k == "parent_directory_ref" || k == "mime_type" || k == "key" || k == "values" || k == "data"
    || k == "data_type" || k == "src_ref" || k == "src_port" || k == "dst_ref" || k == "dst_port"
    || k == "protocols" || k == "pid" || k == "created" || k == "parent_ref" || k == "command_line"
    || k == "service_name" || k == "display_name" || k == "service_type" || k == "binary_ref"
    || k == "timestamp" || k == "input_object_refs" || k == "output_object_refs" || k == "signature_type"
    || k == "instance_object_refs" || k == "labels" || k == "capabilities" || k == "dynamic_features"
    || k == "static_features" || k == "analysis_metadata" || k == "description" || k == "severity"
    || k == "strings" || k == "process_tree" || k == "is_automated" || k == "analysis_type" || k == "tool_refs"
    || k == "vm_ref" || k == "summary" || k == "process_ref" || k == "ordinal_position"
    || k == "initiated_action_refs" || k == "schema_version" || k == "maec_objects" || k == "observable_objects"
    || k == "relationships" || k == "extensions" || k == "triggered_signatures" || k == "mitre_attck"
  }

  predicate Sortable(o: Obj) {
    forall k :: k in o ==> InOrder(k)
  }

  predicate PlainKey(k: string) {
    k == "type" || k == "name" || k == "value" || k == "hashes" || k == "path" || k == "size"
    || k == "parent_directory_ref" || k == "mime_type" || k == "pid" || k == "created" || k == "command_line"
    || k == "extensions"
  }

  lemma {:induction false} PlainSortable(o: Obj)
    requires forall k :: k in o ==> PlainKey(k)
    ensures Sortable(o)
  {}

  // ---- the references of an action

  /** The object that a call's arguments make, if they set any property. */
  function Mapped(m: ObjectMapping, args: map<string, string>): Option<Obj> {
    match MapEntries(map["type" := Text(m.objectType)], m.entries, args)
    case None => None
    case Some(o) => if |o| > 1 then Some(o) else None
  }

  /** The references an action gets from one side of its mapping: none if no object is made, an empty
      list if the object made cannot be stored, otherwise the id of the stored object. */
  function MappedRefs(m: Option<ObjectMapping>, args: map<string, string>, t: Table,
      kind: string -> Kind): Option<seq<string>> {
    if m.None? then None
    else match Mapped(m.value, args)
      case None => None
      case Some(o) =>
        if "type" !in o then Some([])
        else match Processed(o, args, t, kind)
          case None => Some([])
          case Some(p) => if Sortable(p) then Some([IdOf(t, p)]) else Some([])
  }

  ghost predicate MappedLooked(m: Option<ObjectMapping>, args: map<string, string>, t: Table, kind: string -> Kind) {
    m.Some? ==>
      match Mapped(m.value, args)
      case None => true
      case Some(o) =>
        && "type" in o && Looked(o, args, t, kind)
        && (match Processed(o, args, t, kind)
            case None => true
            case Some(p) => Sortable(p) ==> p in t)
  }

  lemma {:induction false} MappedStable(m: Option<ObjectMapping>, args: map<string, string>, t: Table, t': Table,
      kind: string -> Kind)
    requires MappedLooked(m, args, t, kind) && Extends(t, t')
    ensures MappedLooked(m, args, t', kind) && MappedRefs(m, args, t', kind) == MappedRefs(m, args, t, kind)
  {
    hide Mapped, Processed, Looked, Sortable;
    if m.Some? && Mapped(m.value, args).Some? {
      ProcessedStable(Mapped(m.value, args).value, args, t, t', kind);
    }
  }
}
