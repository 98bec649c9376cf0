/** The local session file of coaiapy/cofuse.py: `load_session_file`,
    `create_session_and_save` and `add_trace_node_and_save`.

    The file system is a map from path to what reading it gives; YAML text is
    abstracted to the value `yaml.safe_load` returns, and `yaml.safe_dump`
    to storing that value. The dump writes keys in sorted order; the model
    keeps insertion order, so stored and loaded values agree as Python dicts,
    whose equality ignores key order. Each `_and_save` operation first posts its trace
    (see module Ingestion), then reads, updates and writes the file, and
    returns the response text of the post. */
module SessionStore {
  import opened Wrappers
  import opened PyJson
  import Ingestion

  /** What opening and parsing a path gives: nothing there, text that is not
      YAML (or cannot be read), or a parsed document. */
  datatype File = Missing | Corrupt | Parsed(doc: Json)

  /** The files, and the paths that cannot be opened for writing. */
  datatype Disk = Disk(files: map<string, File>, readOnly: set<string>)

  const SessionIdKey := "session_id"
  const NodesKey := "nodes"
  const TraceIdKey := "trace_id"
  const NodeNameKey := "name"

  /** The document `load_session_file` falls back to. */
  const EmptySession := JObj([(SessionIdKey, JNull), (NodesKey, JArr([]))])

  function Read(disk: Disk, path: string): File {
    if path in disk.files then disk.files[path] else Missing
  }

  /** `load_session_file(path)`: the parsed document, whatever its kind; any
      failure to open or parse gives the empty session. */
  function LoadSessionFile(disk: Disk, path: string): (data: Json)
    ensures Read(disk, path).Parsed? ==> data == Read(disk, path).doc
    ensures !Read(disk, path).Parsed? ==> data == EmptySession
  {
    match Read(disk, path)
    case Parsed(doc) => doc
    case _ => EmptySession
  }

  /** `save_session_file(path, data)`: the file now holds `data`; a path that
      cannot be written raises and leaves the disk as it was. */
  function SaveSessionFile(disk: Disk, path: string, data: Json): (r: Result<Disk>)
    ensures r.Err? <==> path in disk.readOnly
    ensures r.Err? ==> r.error == IOError
    ensures r.Ok? ==> r.value.readOnly == disk.readOnly
    ensures r.Ok? ==> Read(r.value, path) == Parsed(data)
    ensures r.Ok? ==> forall p :: p != path ==> Read(r.value, p) == Read(disk, p)
  {
    if path in disk.readOnly then Err(IOError)
    else Ok(Disk(disk.files[path := Parsed(data)], disk.readOnly))
  }

  // ---------------------------------------------------------------------------
  // Dict updates

  /** `d[key] = value`: an existing key keeps its place, a new key goes last. */
  function SetKey(fields: seq<(string, Json)>, key: string, value: Json): (r: seq<(string, Json)>)
    ensures Lookup(fields, key).Some? ==> |r| == |fields|
    ensures Lookup(fields, key).None? ==> r == fields + [(key, value)]
  {
    if |fields| == 0 then [(key, value)]
    else if fields[0].0 == key then [(key, value)] + fields[1..]
    else [fields[0]] + SetKey(fields[1..], key, value)
  }

  /** `if "nodes" not in data: data["nodes"] = []`. */
  function EnsureNodes(fields: seq<(string, Json)>): seq<(string, Json)> {
    if Lookup(fields, NodesKey).Some? then fields else fields + [(NodesKey, JArr([]))]
  }

  /** The dict `{"trace_id": trace_id, "name": node_name}`. */
  function Node(traceId: string, nodeName: string): Json {
    JObj([(TraceIdKey, JStr(traceId)), (NodeNameKey, JStr(nodeName))])
  }

  /** The edit `create_session_and_save` makes: item assignment, which raises
      TypeError on anything but a dict (a file holding `None`, a list, a
      scalar). */
  function WithSessionId(data: Json, sessionId: string): (r: Result<Json>)
    ensures r.Err? <==> !data.JObj?
    ensures r.Err? ==> r.error == TypeError
  {
    if !data.JObj? then Err(TypeError)
    else Ok(JObj(EnsureNodes(SetKey(data.fields, SessionIdKey, JStr(sessionId)))))
  }

  /** The edit `add_trace_node_and_save` makes: `in` and item assignment
      raise TypeError on anything but a dict; `append` raises AttributeError
      when the nodes value is not a list. No check for an existing node. */
  function WithNode(data: Json, traceId: string, nodeName: string): (r: Result<Json>)
    ensures r.Err? <==> !data.JObj? || (Lookup(data.fields, NodesKey).Some? && !Lookup(data.fields, NodesKey).value.JArr?)
    ensures r.Err? ==> r.error == (if data.JObj? then AttributeError else TypeError)
  {
    if !data.JObj? then Err(TypeError)
    else
      var fields := EnsureNodes(data.fields);
      LookupEnsured(data.fields);
      var nodes := Lookup(fields, NodesKey).value;
      if !nodes.JArr? then Err(AttributeError)
      else Ok(JObj(SetKey(fields, NodesKey, JArr(nodes.items + [Node(traceId, nodeName)]))))
  }

  // ---------------------------------------------------------------------------
  // The two operations

  /** A call that posted its trace and then either wrote the file and returned
      the response text, or raised. */
  datatype Outcome = Returned(response: string, disk: Disk) | Raised(error: PyError)

  function Store(response: string, disk: Disk, path: string, edited: Result<Json>): Outcome {
    match edited
    case Err(e) => Raised(e)
    case Ok(data) =>
      match SaveSessionFile(disk, path, data)
      case Err(e) => Raised(e)
      case Ok(after) => Returned(response, after)
  }

  /** `create_session_and_save(session_file, session_id, user_id, session_name)`. */
  function CreateSessionAndSave(post: Ingestion.Post, disk: Disk, path: string, sessionId: string,
                                userId: string, sessionName: string, now: string): Outcome
  {
    var response := Ingestion.CreateSession(post, sessionId, userId, sessionName, now);
    Store(response, disk, path, WithSessionId(LoadSessionFile(disk, path), sessionId))
  }

  /** `add_trace_node_and_save(session_file, session_id, trace_id, user_id, node_name)`. */
  function AddTraceNodeAndSave(post: Ingestion.Post, disk: Disk, path: string, sessionId: string,
                               traceId: string, userId: string, nodeName: string, now: string): Outcome
  {
    var response := Ingestion.AddTraceNode(post, sessionId, traceId, userId, nodeName, now);
    Store(response, disk, path, WithNode(LoadSessionFile(disk, path), traceId, nodeName))
  }

  // ---------------------------------------------------------------------------
  // Properties

  lemma LookupEnsured(fields: seq<(string, Json)>)
    ensures Lookup(EnsureNodes(fields), NodesKey) ==
      if Lookup(fields, NodesKey).Some? then Lookup(fields, NodesKey) else Some(JArr([]))
    ensures forall k :: k != NodesKey ==> Lookup(EnsureNodes(fields), k) == Lookup(fields, k)
  {
    forall k | true
      ensures Lookup(fields + [(NodesKey, JArr([]))], k) ==
        if Lookup(fields, k).Some? then Lookup(fields, k) else Lookup([(NodesKey, JArr([]))], k)
    {
      Ingestion.LookupConcat(fields, [(NodesKey, JArr([]))], k);
    }
    forall k | true ensures Lookup([(NodesKey, JArr([]))], k) == if k == NodesKey then Some(JArr([])) else None {
      Ingestion.LookupSingle(NodesKey, JArr([]), k);
    }
  }

  /** After `d[key] = value`, `d[key]` is `value` and every other key reads as
      before. */
  lemma {:induction false} LookupSetKey(fields: seq<(string, Json)>, key: string, value: Json, other: string)
    ensures Lookup(SetKey(fields, key, value), other) == if other == key then Some(value) else Lookup(fields, other)
    decreases |fields|
  {
    if |fields| > 0 && fields[0].0 != key {
      LookupSetKey(fields[1..], key, value, other);
      assert SetKey(fields, key, value)[1..] == SetKey(fields[1..], key, value);
    } else if |fields| > 0 {
      assert SetKey(fields, key, value)[1..] == fields[1..];
    }
  }

  /** `d[key] = value` keeps the key order and adds `key` last if it is new. */
  lemma {:induction false} KeysSetKey(fields: seq<(string, Json)>, key: string, value: Json)
    ensures Keys(SetKey(fields, key, value)) == if key in Keys(fields) then Keys(fields) else Keys(fields) + [key]
    decreases |fields|
  {
    if |fields| > 0 && fields[0].0 != key {
      KeysSetKey(fields[1..], key, value);
      assert Keys(fields) == [fields[0].0] + Keys(fields[1..]);
      assert Keys(SetKey(fields, key, value)) == [fields[0].0] + Keys(SetKey(fields[1..], key, value));
    } else if |fields| > 0 {
      assert Keys(SetKey(fields, key, value)) == [key] + Keys(fields[1..]);
      assert Keys(fields) == [key] + Keys(fields[1..]);
    }
  }

  /** Saving and loading again gives back what was saved. */
  lemma LoadAfterSave(disk: Disk, path: string, data: Json)
    requires path !in disk.readOnly
    ensures SaveSessionFile(disk, path, data).Ok?
    ensures LoadSessionFile(SaveSessionFile(disk, path, data).value, path) == data
  {
  }

  /** A value already stored under a key is left in place by storing it again. */
  lemma {:induction false} SetKeyAgain(fields: seq<(string, Json)>, key: string, value: Json)
    requires Lookup(fields, key) == Some(value)
    ensures SetKey(fields, key, value) == fields
    decreases |fields|
  {
    if fields[0].0 != key {
      SetKeyAgain(fields[1..], key, value);
      assert fields == [fields[0]] + fields[1..];
    }
  }

  lemma KeysDiffer()
    ensures SessionIdKey != NodesKey
  {
    assert SessionIdKey[0] == 's' && NodesKey[0] == 'n';
  }

  /** Keys of the loaded dict keep their order; new keys are added after them. */
  predicate KeepsKeyOrder(before: seq<(string, Json)>, after: seq<(string, Json)>) {
    |Keys(before)| <= |Keys(after)| && Keys(after)[..|Keys(before)|] == Keys(before)
  }

  /** Storing the session id: `session_id` holds it, `nodes` holds the old
      list or a new empty one, and every other key is as loaded. */
  lemma SessionIdEdit(data: Json, sessionId: string)
    requires data.JObj?
    ensures var r := WithSessionId(data, sessionId);
      r.Ok? && r.value.JObj? && KeepsKeyOrder(data.fields, r.value.fields)
    ensures var r := WithSessionId(data, sessionId).value;
      Lookup(r.fields, SessionIdKey) == Some(JStr(sessionId))
    ensures var r := WithSessionId(data, sessionId).value;
      Lookup(r.fields, NodesKey) == Some(Lookup(data.fields, NodesKey).GetOr(JArr([])))
    ensures var r := WithSessionId(data, sessionId).value;
      forall k :: k != SessionIdKey && k != NodesKey ==> Lookup(r.fields, k) == Lookup(data.fields, k)
  {
    KeysDiffer();
    var set1 := SetKey(data.fields, SessionIdKey, JStr(sessionId));
    LookupEnsured(set1);
    forall k ensures Lookup(set1, k) == if k == SessionIdKey then Some(JStr(sessionId)) else Lookup(data.fields, k) {
      LookupSetKey(data.fields, SessionIdKey, JStr(sessionId), k);
    }
    SetKeyKeepsKeyOrder(data.fields, SessionIdKey, JStr(sessionId));
    EnsureNodesKeepsKeyOrder(data.fields, set1);
  }

  lemma SetKeyKeepsKeyOrder(fields: seq<(string, Json)>, key: string, value: Json)
    ensures KeepsKeyOrder(fields, SetKey(fields, key, value))
  {
    KeysSetKey(fields, key, value);
  }

  lemma EnsureNodesKeepsKeyOrder(before: seq<(string, Json)>, fields: seq<(string, Json)>)
    requires KeepsKeyOrder(before, fields)
    ensures KeepsKeyOrder(before, EnsureNodes(fields))
  {
    if Lookup(fields, NodesKey).None? {
      Ingestion.KeysConcat(fields, [(NodesKey, JArr([]))]);
      assert Keys(EnsureNodes(fields))[..|Keys(fields)|] == Keys(fields);
    }
  }

  /** Appending a node: `nodes` is the old list (or an empty one) with the new
      node added last, even if an equal node is already there; every other
      key is as loaded. */
  lemma NodeEdit(data: Json, traceId: string, nodeName: string)
    requires data.JObj?
    requires Lookup(data.fields, NodesKey).Some? ==> Lookup(data.fields, NodesKey).value.JArr?
    ensures var r := WithNode(data, traceId, nodeName);
      r.Ok? && r.value.JObj? && KeepsKeyOrder(data.fields, r.value.fields)
    ensures var r := WithNode(data, traceId, nodeName).value;
      Lookup(r.fields, NodesKey) == Some(JArr(Nodes(data) + [Node(traceId, nodeName)]))
    ensures var r := WithNode(data, traceId, nodeName).value;
      forall k :: k != NodesKey ==> Lookup(r.fields, k) == Lookup(data.fields, k)
  {
    var fields := EnsureNodes(data.fields);
    LookupEnsured(data.fields);
    var value := JArr(Nodes(data) + [Node(traceId, nodeName)]);
    forall k ensures Lookup(SetKey(fields, NodesKey, value), k) == if k == NodesKey then Some(value) else Lookup(fields, k) {
      LookupSetKey(fields, NodesKey, value, k);
    }
    assert Keys(data.fields)[..|Keys(data.fields)|] == Keys(data.fields);
    EnsureNodesKeepsKeyOrder(data.fields, data.fields);
    SetKeyKeepsKeyOrder(fields, NodesKey, value);
    KeepsKeyOrderTrans(data.fields, fields, SetKey(fields, NodesKey, value));
  }

  lemma KeepsKeyOrderTrans(a: seq<(string, Json)>, b: seq<(string, Json)>, c: seq<(string, Json)>)
    requires KeepsKeyOrder(a, b) && KeepsKeyOrder(b, c)
    ensures KeepsKeyOrder(a, c)
  {
    assert Keys(c)[..|Keys(a)|] == Keys(c)[..|Keys(b)|][..|Keys(a)|];
  }

  /** The node list of a loaded dict, empty when there is none. */
  function Nodes(data: Json): seq<Json>
    requires data.JObj?
  {
    match Lookup(data.fields, NodesKey)
    case Some(JArr(items)) => items
    case _ => []
  }

  /** `create_session_and_save` returns the response of posting the session
      trace exactly when the loaded document is a dict and the file can be
      written; the file then holds the edited dict and no other file changes.
      Otherwise it raises TypeError (not a dict) or IOError (not writable). */
  lemma CreateSessionOutcome(post: Ingestion.Post, disk: Disk, path: string, sessionId: string,
                             userId: string, sessionName: string, now: string)
    ensures var o := CreateSessionAndSave(post, disk, path, sessionId, userId, sessionName, now);
      o.Returned? <==> LoadSessionFile(disk, path).JObj? && path !in disk.readOnly
    ensures var o := CreateSessionAndSave(post, disk, path, sessionId, userId, sessionName, now);
      o.Raised? ==> o.error == if LoadSessionFile(disk, path).JObj? then IOError else TypeError
    ensures var o := CreateSessionAndSave(post, disk, path, sessionId, userId, sessionName, now);
      o.Returned? ==>
        && o.response == post(Ingestion.TraceEnvelope(sessionId, Some(userId), Some(sessionId), Some(sessionName), now))
        && Read(o.disk, path) == Parsed(WithSessionId(LoadSessionFile(disk, path), sessionId).value)
        && o.disk.readOnly == disk.readOnly
        && forall p :: p != path ==> Read(o.disk, p) == Read(disk, p)
  {
  }

  /** `add_trace_node_and_save` returns the response of posting the node
      trace exactly when the loaded document is a dict whose `nodes`, if
      present, is a list, and the file can be written. */
  lemma AddTraceNodeOutcome(post: Ingestion.Post, disk: Disk, path: string, sessionId: string,
                            traceId: string, userId: string, nodeName: string, now: string)
    ensures var o := AddTraceNodeAndSave(post, disk, path, sessionId, traceId, userId, nodeName, now);
      var data := LoadSessionFile(disk, path);
      o.Returned? <==>
        data.JObj? && (Lookup(data.fields, NodesKey).Some? ==> Lookup(data.fields, NodesKey).value.JArr?)
        && path !in disk.readOnly
    ensures var o := AddTraceNodeAndSave(post, disk, path, sessionId, traceId, userId, nodeName, now);
      o.Returned? ==>
        && o.response == post(Ingestion.TraceEnvelope(traceId, Some(userId), Some(sessionId), Some(nodeName), now))
        && Read(o.disk, path) == Parsed(WithNode(LoadSessionFile(disk, path), traceId, nodeName).value)
        && o.disk.readOnly == disk.readOnly
        && forall p :: p != path ==> Read(o.disk, p) == Read(disk, p)
  {
  }

  /** With no readable session file, creating a session writes exactly
      `{session_id: <id>, nodes: []}`. */
  lemma FreshSessionFile(post: Ingestion.Post, disk: Disk, path: string, sessionId: string,
                         userId: string, sessionName: string, now: string)
    requires !Read(disk, path).Parsed? && path !in disk.readOnly
    ensures var o := CreateSessionAndSave(post, disk, path, sessionId, userId, sessionName, now);
      o.Returned? && LoadSessionFile(o.disk, path) == JObj([(SessionIdKey, JStr(sessionId)), (NodesKey, JArr([]))])
  {
    var fields := [(SessionIdKey, JStr(sessionId)), (NodesKey, JArr([]))];
    assert SetKey(EmptySession.fields, SessionIdKey, JStr(sessionId)) == fields;
    KeysDiffer();
    assert Lookup(fields, NodesKey) == Some(JArr([]));
    assert WithSessionId(EmptySession, sessionId) == Ok(JObj(fields));
  }

  /** Creating the same session twice leaves the file as the first call wrote it. */
  lemma CreateSessionTwice(post: Ingestion.Post, disk: Disk, path: string, sessionId: string,
                           userId: string, sessionName: string, now: string, later: string)
    requires CreateSessionAndSave(post, disk, path, sessionId, userId, sessionName, now).Returned?
    ensures var first := CreateSessionAndSave(post, disk, path, sessionId, userId, sessionName, now).disk;
      var second := CreateSessionAndSave(post, first, path, sessionId, userId, sessionName, later);
      second.Returned? && Read(second.disk, path) == Read(first, path)
  {
    var data := LoadSessionFile(disk, path);
    SessionIdEdit(data, sessionId);
    var edited := WithSessionId(data, sessionId).value;
    SetKeyAgain(edited.fields, SessionIdKey, JStr(sessionId));
  }

  /** Adding a node twice records it twice: nodes are never de-duplicated. */
  lemma SameNodeTwice(data: Json, traceId: string, nodeName: string)
    requires WithNode(data, traceId, nodeName).Ok?
    ensures var once := WithNode(data, traceId, nodeName).value;
      var twice := WithNode(once, traceId, nodeName);
      twice.Ok? && twice.value.JObj? && Nodes(twice.value) == Nodes(data) + [Node(traceId, nodeName), Node(traceId, nodeName)]
  {
    var n := Node(traceId, nodeName);
    NodeAppended(data, traceId, nodeName);
    var once := WithNode(data, traceId, nodeName).value;
    NodeAppended(once, traceId, nodeName);
    assert Nodes(data) + [n] + [n] == Nodes(data) + [n, n];
  }

  /** A successful append leaves a list of nodes with the new one last. */
  lemma NodeAppended(data: Json, traceId: string, nodeName: string)
    requires WithNode(data, traceId, nodeName).Ok?
    ensures var r := WithNode(data, traceId, nodeName).value;
      && r.JObj?
      && Lookup(r.fields, NodesKey) == Some(JArr(Nodes(data) + [Node(traceId, nodeName)]))
      && Nodes(r) == Nodes(data) + [Node(traceId, nodeName)]
  {
    NodeEdit(data, traceId, nodeName);
  }
}
