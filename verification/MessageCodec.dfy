/** The fields a published message is laid out in, and what a subscriber reads back from them. */
module MessageCodec {

  type Fields = map<string, string>

  /** A Go time: the zero time, or another one, given by its RFC 3339 text. */
  datatype Time = Unset | At(text: string)

  function Format(t: Time): string {
    if t.Unset? then "0001-01-01T00:00:00Z" else t.text
  }

  /** The fields of a message. */
  datatype Content = Content(
    id: string, topic: string, key: string, payload: string, metadata: Fields, occurredAt: Time, publishedAt: Time)

  const PREFIX := "meta_"

  function Meta(k: string): (f: string)
    ensures IsMeta(f) && f[5..] == k
  {
    PREFIX + k
  }

  predicate IsMeta(f: string) {
    |f| >= 5 && f[..5] == PREFIX
  }

  lemma MetaOfRest(f: string)
    requires IsMeta(f)
    ensures Meta(f[5..]) == f
  {
  }

  function BaseFields(id: string, key: string, payload: string, occurred: string, published: string): Fields {
    map["id" := id, "key" := key, "payload" := payload, "occurred_at" := occurred, "published_at" := published]
  }

  lemma BaseFieldsAreNotMeta(id: string, key: string, payload: string, occurred: string, published: string)
    ensures forall f | f in BaseFields(id, key, payload, occurred, published) :: !IsMeta(f)
  {
    assert "id"[0] != PREFIX[0] && "key"[0] != PREFIX[0] && "payload"[0] != PREFIX[0];
    assert "occurred_at"[0] != PREFIX[0] && "published_at"[0] != PREFIX[0];
  }

  function MetaFields(metadata: Fields): (fields: Fields)
    ensures forall f {:trigger f in fields} :: f in fields <==> IsMeta(f) && f[5..] in metadata
    ensures forall f {:trigger fields[f]} | f in fields :: |f| >= 5 && f[5..] in metadata && fields[f] == metadata[f[5..]]
  {
    var names := set k | k in metadata :: Meta(k);
    assert forall f | IsMeta(f) && f[5..] in metadata :: f in names by {
      forall f | IsMeta(f) && f[5..] in metadata ensures f in names { MetaOfRest(f); }
    }
    map f | f in names :: metadata[f[5..]]
  }

  function Base(c: Content): Fields {
    BaseFields(c.id, c.key, c.payload, Format(c.occurredAt), Format(c.publishedAt))
  }

  function Encode(c: Content): Fields {
    Base(c) + MetaFields(c.metadata)
  }

  function Lookup(values: Fields, f: string): string {
    if f in values then values[f] else ""
  }

  /** The metadata names a subscriber recovers. */
  function MetaNames(values: Fields): set<string> {
    set f | f in values && |f| > 5 && IsMeta(f) :: f[5..]
  }

  function MetadataOf(values: Fields): Fields {
    map k | k in MetaNames(values) && Meta(k) in values :: values[Meta(k)]
  }

  /** parseMessage, and the topic Subscribe fills in. Neither time field is read. */
  function Decode(topic: string, entryId: string, values: Fields): Content {
    Content(if Lookup(values, "id") != "" then values["id"] else entryId, topic,
            Lookup(values, "key"), Lookup(values, "payload"), MetadataOf(values), Unset, Unset)
  }

  lemma MetadataOfLayout(base: Fields, metadata: Fields)
    requires forall f | f in base :: !IsMeta(f)
    ensures MetadataOf(base + MetaFields(metadata)) == metadata - {""}
  {
    var values := base + MetaFields(metadata);
    var names := MetaNames(values);
    forall k
      ensures k in names && Meta(k) in values <==> k in metadata && k != ""
      ensures k in metadata ==> Meta(k) in values && values[Meta(k)] == metadata[k]
    {
      assert Meta(k)[5..] == k;
      assert Meta(k) in values <==> k in metadata;
      if k in metadata && k != "" {
        assert |Meta(k)| > 5;
        assert Meta(k)[5..] in names;
      }
    }
  }

  lemma LayoutKeepsBase(base: Fields, metadata: Fields, f: string)
    requires f in base && !IsMeta(f)
    ensures Lookup(base + MetaFields(metadata), f) == base[f]
  {
  }

  lemma BaseValues(id: string, key: string, payload: string, occurred: string, published: string)
    ensures var base := BaseFields(id, key, payload, occurred, published);
            && "id" in base && base["id"] == id
            && "key" in base && base["key"] == key
            && "payload" in base && base["payload"] == payload
  {
    assert |"id"| == 2 && |"key"| == 3 && |"payload"| == 7 && |"occurred_at"| == 11 && |"published_at"| == 12;
  }

  /** The fields by name: the five of every message, and one for each metadata name, after the prefix. */
  ghost predicate IsLaidOut(values: Fields, c: Content) {
    && values.Keys == {"id", "key", "payload", "occurred_at", "published_at"} + (set k | k in c.metadata :: "meta_" + k)
    && values["id"] == c.id && values["key"] == c.key && values["payload"] == c.payload
    && values["occurred_at"] == (if c.occurredAt.Unset? then "0001-01-01T00:00:00Z" else c.occurredAt.text)
    && values["published_at"] == (if c.publishedAt.Unset? then "0001-01-01T00:00:00Z" else c.publishedAt.text)
    && forall k | k in c.metadata :: "meta_" + k in values && values["meta_" + k] == c.metadata[k]
  }

  lemma EncodeIsLaidOut(c: Content)
    ensures IsLaidOut(Encode(c), c)
  {
    var base := Base(c);
    FiveValues(c.id, c.key, c.payload, Format(c.occurredAt), Format(c.publishedAt));
    BaseFieldsAreNotMeta(c.id, c.key, c.payload, Format(c.occurredAt), Format(c.publishedAt));
    forall k | k in c.metadata
      ensures "meta_" + k in MetaFields(c.metadata) && MetaFields(c.metadata)["meta_" + k] == c.metadata[k]
    {
      assert Meta(k) == "meta_" + k && IsMeta(Meta(k)) && Meta(k)[5..] == k;
    }
    forall f
      ensures f in MetaFields(c.metadata) <==> exists k :: k in c.metadata && f == "meta_" + k
    {
      if f in MetaFields(c.metadata) {
        MetaOfRest(f);
        assert f == "meta_" + f[5..];
      }
    }
    assert Encode(c).Keys == base.Keys + MetaFields(c.metadata).Keys;
  }

  lemma FiveValues(id: string, key: string, payload: string, occurred: string, published: string)
    ensures var base := BaseFields(id, key, payload, occurred, published);
            && base.Keys == {"id", "key", "payload", "occurred_at", "published_at"}
            && base["id"] == id && base["key"] == key && base["payload"] == payload
            && base["occurred_at"] == occurred && base["published_at"] == published
  {
    assert |"id"| == 2 && |"key"| == 3 && |"payload"| == 7 && |"occurred_at"| == 11 && |"published_at"| == 12;
  }

  /** What arrives of a message. */
  function Arriving(c: Content, entryId: string): Content {
    c.(id := if c.id == "" then entryId else c.id, metadata := c.metadata - {""}, occurredAt := Unset, publishedAt := Unset)
  }

  /** Everything arrives but the two times, an empty id, and metadata under the empty name. */
  lemma DecodeOfEncode(c: Content, entryId: string)
    ensures Decode(c.topic, entryId, Encode(c)) == Arriving(c, entryId)
  {
    BaseFieldsAreNotMeta(c.id, c.key, c.payload, Format(c.occurredAt), Format(c.publishedAt));
    BaseValues(c.id, c.key, c.payload, Format(c.occurredAt), Format(c.publishedAt));
    DecodeLayout(Base(c), c, entryId);
  }

  lemma DecodeLayout(base: Fields, c: Content, entryId: string)
    requires forall f | f in base :: !IsMeta(f)
    requires "id" in base && base["id"] == c.id && "key" in base && base["key"] == c.key
    requires "payload" in base && base["payload"] == c.payload
    ensures Decode(c.topic, entryId, base + MetaFields(c.metadata)) == Arriving(c, entryId)
  {
    MetadataOfLayout(base, c.metadata);
    LayoutKeepsBase(base, c.metadata, "id");
    LayoutKeepsBase(base, c.metadata, "key");
    LayoutKeepsBase(base, c.metadata, "payload");
  }

  /** A message arrives as it was sent exactly when it has an id, no metadata under the empty name, and no time set. */
  lemma RoundTripIff(c: Content, entryId: string)
    requires entryId != ""
    ensures Decode(c.topic, entryId, Encode(c)) == c <==>
            c.id != "" && "" !in c.metadata && c.occurredAt.Unset? && c.publishedAt.Unset?
  {
    DecodeOfEncode(c, entryId);
    WithoutEmptyName(c.metadata);
  }

  /** The times are among the fields, but no subscriber can tell one time from another. */
  lemma TimesAreNotRead(c: Content, occurredAt: Time, publishedAt: Time, entryId: string)
    ensures Decode(c.topic, entryId, Encode(c.(occurredAt := occurredAt, publishedAt := publishedAt))) ==
            Decode(c.topic, entryId, Encode(c))
  {
    DecodeOfEncode(c, entryId);
    DecodeOfEncode(c.(occurredAt := occurredAt, publishedAt := publishedAt), entryId);
  }

  /** One message for each thing that is lost: its time, its empty id, its metadata under the empty name. */
  lemma LossyMessages(entryId: string)
    requires entryId != ""
    ensures var plain := Content("e1", "topic", "", "{}", map[], Unset, Unset);
            && Decode("topic", entryId, Encode(plain)) == plain
            && Decode("topic", entryId, Encode(plain.(publishedAt := At("2026-01-01T00:00:00Z")))) == plain
            && Decode("topic", entryId, Encode(plain.(id := ""))) == plain.(id := entryId)
            && Decode("topic", entryId, Encode(plain.(metadata := map["" := "x"]))) == plain
  {
    var plain := Content("e1", "topic", "", "{}", map[], Unset, Unset);
    var nothing: Fields := map[];
    DecodeOfEncode(plain, entryId);
    DecodeOfEncode(plain.(publishedAt := At("2026-01-01T00:00:00Z")), entryId);
    DecodeOfEncode(plain.(id := ""), entryId);
    DecodeOfEncode(plain.(metadata := map["" := "x"]), entryId);
    assert nothing - {""} == nothing && map["" := "x"] - {""} == nothing;
  }

  /** All but the times arrives exactly when there is an id and no metadata under the empty name. */
  lemma ArrivesButForTimesIff(c: Content, entryId: string)
    requires entryId != ""
    ensures Arriving(c, entryId) == c.(occurredAt := Unset, publishedAt := Unset) <==> c.id != "" && "" !in c.metadata
  {
    WithoutEmptyName(c.metadata);
  }

  lemma WithoutEmptyName(metadata: Fields)
    ensures metadata - {""} == metadata <==> "" !in metadata
  {
    if "" in metadata {
      assert "" !in metadata - {""};
    }
  }

  // ----- the two ends -----

  function AddMissing(metadata: Fields, k: string, v: string): Fields {
    if v != "" && k !in metadata then metadata[k := v] else metadata
  }

  function Stamped(metadata: Fields, traceparent: string, tracestate: string, requestId: string): Fields {
    AddMissing(AddMissing(AddMissing(metadata, "traceparent", traceparent), "tracestate", tracestate), "request_id", requestId)
  }

  /** Stamping never changes what the caller put there. */
  lemma StampedKeeps(metadata: Fields, traceparent: string, tracestate: string, requestId: string, k: string)
    requires k in metadata
    ensures var stamped := Stamped(metadata, traceparent, tracestate, requestId); k in stamped && stamped[k] == metadata[k]
  {
  }

  /** A name is there afterwards if the caller gave it, or if it is one of the three and there is something to put there. */
  lemma StampedIff(metadata: Fields, traceparent: string, tracestate: string, requestId: string, k: string)
    ensures var stamped := Stamped(metadata, traceparent, tracestate, requestId);
            var added := if k == "traceparent" then traceparent
                         else if k == "tracestate" then tracestate
                         else if k == "request_id" then requestId else "";
            && (k in stamped <==> k in metadata || added != "")
            && (k in stamped ==> stamped[k] == if k in metadata then metadata[k] else added)
  {
    assert |"traceparent"| == 11 && |"tracestate"| == 10 && "tracestate"[0] != "request_id"[0];
  }

  lemma StampedEmptyName(metadata: Fields, traceparent: string, tracestate: string, requestId: string)
    ensures "" in Stamped(metadata, traceparent, tracestate, requestId) <==> "" in metadata
  {
    assert |"traceparent"| == 11 && |"tracestate"| == 10 && |"request_id"| == 10;
  }

  class Message {
    var id: string
    var topic: string
    var key: string
    var payload: string
    var metadata: Fields
    var occurredAt: Time
    var publishedAt: Time

    constructor (content: Content)
      ensures Contents() == content
    {
      id, topic, key, payload := content.id, content.topic, content.key, content.payload;
      metadata, occurredAt, publishedAt := content.metadata, content.occurredAt, content.publishedAt;
    }

    function Contents(): Content
      reads this
    {
      Content(id, topic, key, payload, metadata, occurredAt, publishedAt)
    }
  }

  method Stamp(msg: Message, traceparent: string, tracestate: string, requestId: string)
    modifies msg`metadata
    ensures msg.metadata == Stamped(old(msg.metadata), traceparent, tracestate, requestId)
  {
    ghost var given := msg.metadata;
    if traceparent != "" {
      if "traceparent" !in msg.metadata {
        msg.metadata := msg.metadata["traceparent" := traceparent];
      }
    }
    assert msg.metadata == AddMissing(given, "traceparent", traceparent);
    given := msg.metadata;
    if tracestate != "" {
      if "tracestate" !in msg.metadata {
        msg.metadata := msg.metadata["tracestate" := tracestate];
      }
    }
    assert msg.metadata == AddMissing(given, "tracestate", tracestate);
    given := msg.metadata;
    if requestId != "" {
      if "request_id" !in msg.metadata {
        msg.metadata := msg.metadata["request_id" := requestId];
      }
    }
    assert msg.metadata == AddMissing(given, "request_id", requestId);
  }

  /**
   Publish: the trace context is added where the caller gave none, an unset publication
   time becomes `now`, and the message is laid out as fields.
   */
  method Publish(msg: Message, traceparent: string, tracestate: string, requestId: string, now: Time) returns (values: Fields)
    modifies msg
    ensures msg.Contents() == old(msg.Contents()).(
              metadata := Stamped(old(msg.metadata), traceparent, tracestate, requestId),
              publishedAt := if old(msg.publishedAt).Unset? then now else old(msg.publishedAt))
    ensures values == Encode(msg.Contents()) && IsLaidOut(values, msg.Contents())
  {
    Stamp(msg, traceparent, tracestate, requestId);
    if msg.publishedAt.Unset? {
      msg.publishedAt := now;
    }
    var base := BaseFields(msg.id, msg.key, msg.payload, Format(msg.occurredAt), Format(msg.publishedAt));
    values := Layout(base, msg.metadata);
    EncodeIsLaidOut(msg.Contents());
  }

  /** The fields are filled in whatever order the metadata map is walked. */
  method Layout(base: Fields, metadata: Fields) returns (values: Fields)
    ensures values == base + MetaFields(metadata)
  {
    values := base;
    var rest := metadata.Keys;
    ghost var done: Fields := map[];
    while rest != {}
      invariant rest <= metadata.Keys
      invariant forall k :: k in done <==> k in metadata && k !in rest
      invariant forall k | k in done :: done[k] == metadata[k]
      invariant values == base + MetaFields(done)
      decreases rest
    {
      var k :| k in rest;
      LayoutExtend(base, done, k, metadata[k]);
      values := values[Meta(k) := metadata[k]];
      rest := rest - {k};
      done := done[k := metadata[k]];
    }
    assert done == metadata;
  }

  lemma LayoutExtend(base: Fields, metadata: Fields, k: string, v: string)
    ensures base + MetaFields(metadata[k := v]) == (base + MetaFields(metadata))[Meta(k) := v]
  {
    MetaFieldsExtend(metadata, k, v);
  }

  lemma MetaFieldsExtend(metadata: Fields, k: string, v: string)
    ensures MetaFields(metadata[k := v]) == MetaFields(metadata)[Meta(k) := v]
  {
    var after := metadata[k := v];
    forall f
      ensures f in MetaFields(after) <==> f in MetaFields(metadata)[Meta(k) := v]
    {
      if IsMeta(f) {
        MetaOfRest(f);
      }
    }
    forall f | f in MetaFields(after)
      ensures MetaFields(after)[f] == MetaFields(metadata)[Meta(k) := v][f]
    {
      MetaOfRest(f);
    }
  }

  /** parseMessage: the entry's own id is the default, the metadata is collected field by field, the times stay unset. */
  method ParseMessage(topic: string, entryId: string, values: Fields) returns (c: Content)
    ensures c == Decode(topic, entryId, values)
  {
    var id, key, payload := entryId, "", "";
    if "id" in values && values["id"] != "" {
      id := values["id"];
    }
    if "key" in values {
      key := values["key"];
    }
    if "payload" in values {
      payload := values["payload"];
    }
    var metadata := CollectMetadata(values);
    c := Content(id, topic, key, payload, metadata, Unset, Unset);
  }

  method CollectMetadata(values: Fields) returns (metadata: Fields)
    ensures metadata == MetadataOf(values)
  {
    metadata := map[];
    var rest := values.Keys;
    while rest != {}
      invariant rest <= values.Keys
      invariant forall k :: k in metadata <==> k != "" && Meta(k) in values && Meta(k) !in rest
      invariant forall k | k in metadata :: Meta(k) in values && metadata[k] == values[Meta(k)]
      decreases rest
    {
      var f :| f in rest;
      rest := rest - {f};
      if |f| > 5 && f[..5] == PREFIX {
        MetaOfRest(f);
        metadata := metadata[f[5..] := values[f]];
      }
    }
    forall k
      ensures k in metadata <==> k in MetaNames(values) && Meta(k) in values
    {
      if k in metadata {
        assert |Meta(k)| > 5 && Meta(k)[5..] == k;
      }
    }
  }

  /**
   A published message always has a publication time, so it never reaches the handler as it
   was sent; all but its two times does exactly when it has an id and no metadata under the
   empty name.
   */
  method PublishThenParse(msg: Message, traceparent: string, tracestate: string, requestId: string, now: Time, entryId: string)
    returns (c: Content)
    requires entryId != "" && now.At?
    modifies msg
    ensures c == Arriving(msg.Contents(), entryId) && c != msg.Contents()
    ensures c == msg.Contents().(occurredAt := Unset, publishedAt := Unset) <==> msg.id != "" && "" !in old(msg.metadata)
  {
    var values := Publish(msg, traceparent, tracestate, requestId, now);
    c := ParseMessage(msg.topic, entryId, values);
    DecodeOfEncode(msg.Contents(), entryId);
    ArrivesButForTimesIff(msg.Contents(), entryId);
    StampedEmptyName(old(msg.metadata), traceparent, tracestate, requestId);
  }
}
