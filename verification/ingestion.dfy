/** The ingestion envelope of coaiapy/cofuse.py: `add_trace` and its two
    wrappers `create_session` and `add_trace_node`.

    The POST to `/api/public/ingestion` is an oracle from the JSON body to the
    response text, which the functions return unchanged; the current time
    (`datetime.utcnow().isoformat()`) is a parameter. */
module Ingestion {
  import opened Wrappers
  import opened PyJson

  type Post = Json -> string

  const BatchKey := "batch"
  const TypeKey := "type"
  const IdKey := "id"
  const TimestampKey := "timestamp"
  const SessionKey := "sessionId"
  const NameKey := "name"
  const MetadataKey := "metadata"
  const UserKey := "userId"

  /** What one trace event says, with absent optional fields as None. */
  datatype Trace = Trace(id: string, timestamp: string, sessionId: Option<string>,
                         name: Option<string>, userId: Option<string>)

  /** Python truthiness of an optional string argument: None and "" are
      both left out of the event. */
  function Given(arg: Option<string>): (r: Option<string>)
    ensures r.Some? <==> arg.Some? && arg.value != ""
    ensures r.Some? ==> r == arg
  {
    if arg.Some? && arg.value != "" then arg else None
  }

  function Optional(key: string, value: Option<string>): (r: seq<(string, Json)>)
    ensures |r| <= 1
  {
    if value.Some? then [(key, JStr(value.value))] else []
  }

  function Metadata(userId: Option<string>): (r: seq<(string, Json)>)
    ensures |r| <= 1
  {
    if userId.Some? then [(MetadataKey, JObj([(UserKey, JStr(userId.value))]))] else []
  }

  /** The event dict in its insertion order: type, id, timestamp, then the
      optional sessionId, name and metadata. */
  function EventFields(t: Trace): seq<(string, Json)> {
    [(TypeKey, JStr("trace")), (IdKey, JStr(t.id)), (TimestampKey, JStr(t.timestamp))]
    + Optional(SessionKey, t.sessionId) + Optional(NameKey, t.name) + Metadata(t.userId)
  }

  /** The body `add_trace` posts. */
  function TraceEnvelope(traceId: string, userId: Option<string>, sessionId: Option<string>,
                         name: Option<string>, now: string): Json
  {
    var t := Trace(traceId, now, Given(sessionId), Given(name), Given(userId));
    JObj([(BatchKey, JArr([JObj(EventFields(t))]))])
  }

  /** `add_trace(trace_id, user_id, session_id, name)`. */
  function AddTrace(post: Post, traceId: string, userId: Option<string>, sessionId: Option<string>,
                    name: Option<string>, now: string): string
  {
    post(TraceEnvelope(traceId, userId, sessionId, name, now))
  }

  /** `create_session(session_id, user_id, session_name)`: the session's own
      trace, whose id is the session id. */
  function CreateSession(post: Post, sessionId: string, userId: string, sessionName: string, now: string): string {
    AddTrace(post, sessionId, Some(userId), Some(sessionId), Some(sessionName), now)
  }

  /** `add_trace_node(session_id, trace_id, user_id, node_name)`. */
  function AddTraceNode(post: Post, sessionId: string, traceId: string, userId: string, nodeName: string, now: string): string {
    AddTrace(post, traceId, Some(userId), Some(sessionId), Some(nodeName), now)
  }

  const DefaultSessionName := "New Session"
  const DefaultNodeName := "Child Node"

  // ---------------------------------------------------------------------------
  // Reading an envelope back

  function StrField(fields: seq<(string, Json)>, key: string): Option<string> {
    match Lookup(fields, key)
    case Some(JStr(s)) => Some(s)
    case _ => None
  }

  function ReadUser(fields: seq<(string, Json)>): Option<string> {
    match Lookup(fields, MetadataKey)
    case Some(JObj(meta)) => StrField(meta, UserKey)
    case _ => None
  }

  /** The trace event of a one-event batch, as the ingestion API reads it. */
  function ReadEnvelope(body: Json): Option<Trace> {
    if !body.JObj? then None
    else
      var batch := Lookup(body.fields, BatchKey);
      if batch.None? || !batch.value.JArr? || |batch.value.items| != 1 || !batch.value.items[0].JObj? then None
      else ReadEvent(batch.value.items[0].fields)
  }

  function ReadEvent(fields: seq<(string, Json)>): Option<Trace> {
    var id, timestamp := StrField(fields, IdKey), StrField(fields, TimestampKey);
    if Lookup(fields, TypeKey) != Some(JStr("trace")) || id.None? || timestamp.None? then None
    else Some(Trace(id.value, timestamp.value, StrField(fields, SessionKey), StrField(fields, NameKey), ReadUser(fields)))
  }

  // ---------------------------------------------------------------------------
  // Properties

  lemma {:induction false} LookupConcat(a: seq<(string, Json)>, b: seq<(string, Json)>, key: string)
    ensures Lookup(a + b, key) == if Lookup(a, key).Some? then Lookup(a, key) else Lookup(b, key)
    decreases |a|
  {
    if |a| == 0 {
      assert a + b == b;
    } else {
      assert (a + b)[1..] == a[1..] + b;
      LookupConcat(a[1..], b, key);
    }
  }

  lemma KeysDiffer()
    ensures TypeKey != IdKey && TypeKey != TimestampKey && IdKey != TimestampKey
    ensures SessionKey !in {TypeKey, IdKey, TimestampKey}
    ensures NameKey !in {TypeKey, IdKey, TimestampKey, SessionKey}
    ensures MetadataKey !in {TypeKey, IdKey, TimestampKey, SessionKey, NameKey}
  {
    assert TypeKey[0] == 't' && IdKey[0] == 'i' && TimestampKey[0] == 't' && SessionKey[0] == 's';
    assert NameKey[0] == 'n' && MetadataKey[0] == 'm';
    assert |TypeKey| == 4 && |TimestampKey| == 9;
  }

  lemma LookupSingle(k: string, v: Json, key: string)
    ensures Lookup([(k, v)], key) == if k == key then Some(v) else None
  {
    if k != key {
      assert [(k, v)][1..] == [];
    }
  }

  /** Where each key of an event is found: the fixed three first, then the
      optional ones. */
  lemma LookupEvent(t: Trace, key: string)
    ensures Lookup(EventFields(t), key) ==
      if key == TypeKey then Some(JStr("trace"))
      else if key == IdKey then Some(JStr(t.id))
      else if key == TimestampKey then Some(JStr(t.timestamp))
      else Lookup(Optional(SessionKey, t.sessionId) + Optional(NameKey, t.name) + Metadata(t.userId), key)
  {
    var a, b, c := [(TypeKey, JStr("trace"))], [(IdKey, JStr(t.id))], [(TimestampKey, JStr(t.timestamp))];
    var rest := Optional(SessionKey, t.sessionId) + Optional(NameKey, t.name) + Metadata(t.userId);
    assert EventFields(t) == a + (b + (c + rest));
    LookupConcat(a, b + (c + rest), key);
    LookupConcat(b, c + rest, key);
    LookupConcat(c, rest, key);
    LookupSingle(TypeKey, JStr("trace"), key);
    LookupSingle(IdKey, JStr(t.id), key);
    LookupSingle(TimestampKey, JStr(t.timestamp), key);
  }

  lemma LookupOptional(k: string, v: Option<string>, rest: seq<(string, Json)>, key: string)
    ensures Lookup(Optional(k, v) + rest, key) ==
      if k == key && v.Some? then Some(JStr(v.value)) else Lookup(rest, key)
  {
    LookupConcat(Optional(k, v), rest, key);
    if v.Some? {
      LookupSingle(k, JStr(v.value), key);
    }
  }

  /** The first three fields, then each optional field found where it was
      put and only if it was given. */
  lemma ReadEventFields(t: Trace)
    ensures ReadEvent(EventFields(t)) == Some(t)
  {
    KeysDiffer();
    LookupEvent(t, TypeKey);
    LookupEvent(t, IdKey);
    LookupEvent(t, TimestampKey);
    ReadSessionField(t);
    ReadNameField(t);
    ReadUserField(t);
  }

  lemma ReadSessionField(t: Trace)
    ensures StrField(EventFields(t), SessionKey) == t.sessionId
  {
    KeysDiffer();
    var n, m := Optional(NameKey, t.name), Metadata(t.userId);
    LookupEvent(t, SessionKey);
    assert Optional(SessionKey, t.sessionId) + n + m == Optional(SessionKey, t.sessionId) + (n + m);
    LookupOptional(SessionKey, t.sessionId, n + m, SessionKey);
  }

  lemma ReadNameField(t: Trace)
    ensures StrField(EventFields(t), NameKey) == t.name
  {
    KeysDiffer();
    var n, m := Optional(NameKey, t.name), Metadata(t.userId);
    LookupEvent(t, NameKey);
    assert Optional(SessionKey, t.sessionId) + n + m == Optional(SessionKey, t.sessionId) + (n + m);
    LookupOptional(SessionKey, t.sessionId, n + m, NameKey);
    LookupOptional(NameKey, t.name, m, NameKey);
  }

  lemma ReadUserField(t: Trace)
    ensures ReadUser(EventFields(t)) == t.userId
  {
    KeysDiffer();
    var n, m := Optional(NameKey, t.name), Metadata(t.userId);
    LookupEvent(t, MetadataKey);
    assert Optional(SessionKey, t.sessionId) + n + m == Optional(SessionKey, t.sessionId) + (n + m);
    LookupOptional(SessionKey, t.sessionId, n + m, MetadataKey);
    LookupOptional(NameKey, t.name, m, MetadataKey);
    MetadataHoldsUser(t.userId);
  }

  lemma MetadataHoldsUser(userId: Option<string>)
    ensures match Lookup(Metadata(userId), MetadataKey)
      case Some(JObj(meta)) => StrField(meta, UserKey) == userId
      case _ => userId.None?
  {
    if userId.Some? {
      LookupSingle(MetadataKey, JObj([(UserKey, JStr(userId.value))]), MetadataKey);
      LookupSingle(UserKey, JStr(userId.value), UserKey);
    }
  }

  /** Reading back the posted body gives the trace id, the time, and exactly
      the optional fields that were given non-empty. */
  lemma EnvelopeRoundTrip(traceId: string, userId: Option<string>, sessionId: Option<string>,
                          name: Option<string>, now: string)
    ensures ReadEnvelope(TraceEnvelope(traceId, userId, sessionId, name, now))
         == Some(Trace(traceId, now, Given(sessionId), Given(name), Given(userId)))
  {
    var t := Trace(traceId, now, Given(sessionId), Given(name), Given(userId));
    ReadEventFields(t);
    LookupSingle(BatchKey, JArr([JObj(EventFields(t))]), BatchKey);
  }

  /** The batch holds exactly one event, whose keys are type, id and
      timestamp followed by those optional keys whose value was given. */
  lemma EnvelopeShape(traceId: string, userId: Option<string>, sessionId: Option<string>,
                      name: Option<string>, now: string)
    ensures var body := TraceEnvelope(traceId, userId, sessionId, name, now);
      Keys(body.fields) == [BatchKey] && body.fields[0].1.JArr? && |body.fields[0].1.items| == 1
    ensures var event := TraceEnvelope(traceId, userId, sessionId, name, now).fields[0].1.items[0];
      event.JObj? && Keys(event.fields) ==
        [TypeKey, IdKey, TimestampKey]
        + (if Given(sessionId).Some? then [SessionKey] else [])
        + (if Given(name).Some? then [NameKey] else [])
        + (if Given(userId).Some? then [MetadataKey] else [])
  {
    var t := Trace(traceId, now, Given(sessionId), Given(name), Given(userId));
    var fixed := [(TypeKey, JStr("trace")), (IdKey, JStr(t.id)), (TimestampKey, JStr(t.timestamp))];
    var o1, o2, m := Optional(SessionKey, t.sessionId), Optional(NameKey, t.name), Metadata(t.userId);
    KeysConcat(fixed + o1 + o2, m);
    KeysConcat(fixed + o1, o2);
    KeysConcat(fixed, o1);
    assert Keys(fixed) == [TypeKey, IdKey, TimestampKey];
    assert Keys(o1) == (if Given(sessionId).Some? then [SessionKey] else []);
    assert Keys(o2) == (if Given(name).Some? then [NameKey] else []);
    assert Keys(m) == (if Given(userId).Some? then [MetadataKey] else []);
  }

  lemma KeysConcat(a: seq<(string, Json)>, b: seq<(string, Json)>)
    ensures Keys(a + b) == Keys(a) + Keys(b)
  {
    assert forall i :: 0 <= i < |a + b| ==> Keys(a + b)[i] == (Keys(a) + Keys(b))[i];
  }

  /** A session is its own first trace: the event's id and sessionId are both
      the session id (when it is non-empty). */
  lemma CreateSessionUsesSessionIdTwice(post: Post, sessionId: string, userId: string, sessionName: string, now: string)
    requires sessionId != ""
    ensures CreateSession(post, sessionId, userId, sessionName, now) == post(TraceEnvelope(sessionId, Some(userId), Some(sessionId), Some(sessionName), now))
    ensures var t := ReadEnvelope(TraceEnvelope(sessionId, Some(userId), Some(sessionId), Some(sessionName), now));
      t.Some? && t.value.id == sessionId && t.value.sessionId == Some(sessionId)
  {
    EnvelopeRoundTrip(sessionId, Some(userId), Some(sessionId), Some(sessionName), now);
  }

  /** A node is a trace of the session, named after the node. */
  lemma TraceNodeBelongsToSession(post: Post, sessionId: string, traceId: string, userId: string, nodeName: string, now: string)
    requires sessionId != "" && nodeName != ""
    ensures var t := ReadEnvelope(TraceEnvelope(traceId, Some(userId), Some(sessionId), Some(nodeName), now));
      t.Some? && t.value.id == traceId && t.value.sessionId == Some(sessionId) && t.value.name == Some(nodeName)
  {
    EnvelopeRoundTrip(traceId, Some(userId), Some(sessionId), Some(nodeName), now);
  }
}
