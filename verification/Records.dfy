/** Log lines into records (internal/parser/talog/parser.go, record.go).  JSON decoding is a function parameter. */
module Records {
  import opened Wrappers
  import opened Documents
  import opened WriteModels

  /** A record; its document is None for a nil map, which the parser never leaves there. */
  datatype TaRecord = TaRecord(typ: string, uuid: string, account: string, distinct: string, doc: Option<Doc>)

  function ToString(payload: Doc, key: string): string {
    if key in payload && payload[key].Str? then payload[key].s else ""
  }

  predicate IsUserType(typ: string) {
    "user_" <= typ
  }

  predicate IsEventType(typ: string) {
    "track" <= typ
  }

  /** What a payload of each kind must carry. */
  predicate ValidByType(typ: string, payload: Doc) {
    var hasIdentity := ToString(payload, "#account_id") != "" || ToString(payload, "#distinct_id") != "";
    if IsUserType(typ) then ToString(payload, "#time") != "" && hasIdentity
    else IsEventType(typ) && ToString(payload, "#time") != "" && ToString(payload, "#event_name") != "" && hasIdentity
  }

  /** The fields of "properties" are promoted to the root. */
  function Flatten(payload: Doc): Doc {
    if "properties" in payload && payload["properties"].Sub?
    then (payload + payload["properties"].fields) - {"properties"}
    else payload
  }

  method FlattenPayload(payload: Doc) returns (doc: Doc)
    ensures doc == Flatten(payload)
  {
    doc := Copied(map[], payload);
    assert doc == payload;
    if "properties" in payload && payload["properties"].Sub? {
      doc := Copied(doc, payload["properties"].fields);
      doc := doc - {"properties"};
    }
  }

  /** Stores every field of one document into another. */
  method Copied(into: Doc, from: Doc) returns (doc: Doc)
    ensures doc == into + from
  {
    doc := into;
    var rest := from.Keys;
    while rest != {}
      invariant rest <= from.Keys
      invariant doc == into + map k | k in from && k !in rest :: from[k]
      decreases |rest|
    {
      var k :| k in rest;
      rest := rest - {k};
      doc := doc[k := from[k]];
    }
    assert (map k | k in from && k !in rest :: from[k]) == from;
  }

  function RecordOf(payload: Doc, now: int): Option<TaRecord> {
    var typ, uuid := ToString(payload, "#type"), ToString(payload, "#uuid");
    if typ == "" || uuid == "" || !ValidByType(typ, payload) then None
    else
      var doc := Flatten(payload)["#time" := Str(ToString(payload, "#time"))]["#uuid" := Str(uuid)]["_ts" := Num(now)];
      Some(TaRecord(typ, uuid, ToString(payload, "#account_id"), ToString(payload, "#distinct_id"), Some(doc)))
  }

  method BuildRecord(payload: Doc, now: int) returns (r: Option<TaRecord>)
    ensures r == RecordOf(payload, now)
  {
    var typ, uuid := ToString(payload, "#type"), ToString(payload, "#uuid");
    if typ == "" || uuid == "" {
      return None;
    }
    if !ValidByType(typ, payload) {
      return None;
    }
    var doc := FlattenPayload(payload);
    doc := doc["#time" := Str(ToString(payload, "#time"))];
    doc := doc["#uuid" := Str(uuid)];
    doc := doc["_ts" := Num(now)];
    return Some(TaRecord(typ, uuid, ToString(payload, "#account_id"), ToString(payload, "#distinct_id"), Some(doc)));
  }

  predicate HasTaKeys(payload: Doc) {
    "#time" in payload || "#type" in payload || "#event_name" in payload
  }

  const ENVELOPE_KEYS := ["msg", "message", "log"]

  /** The payload inside an envelope: of the first key whose string decodes to one. */
  function Enveloped(decode: string -> Option<Doc>, payload: Doc, keys: seq<string>): Option<Doc> {
    if keys == [] then None
    else
      var s := ToString(payload, keys[0]);
      if |s| >= 2 && s[0] == '{' && decode(s).Some? && HasTaKeys(decode(s).value) then decode(s)
      else Enveloped(decode, payload, keys[1..])
  }

  function Parsed(decode: string -> Option<Doc>, line: string, now: int): Option<TaRecord> {
    if decode(line).None? then None
    else if HasTaKeys(decode(line).value) then RecordOf(decode(line).value, now)
    else
      var inner := Enveloped(decode, decode(line).value, ENVELOPE_KEYS);
      if inner.None? then None else RecordOf(inner.value, now)
  }

  method ParseLine(decode: string -> Option<Doc>, line: string, now: int) returns (r: Option<TaRecord>)
    ensures r == Parsed(decode, line, now)
  {
    var obj := decode(line);
    if obj.None? {
      return None;
    }
    if HasTaKeys(obj.value) {
      r := BuildRecord(obj.value, now);
      return;
    }
    var keys := ENVELOPE_KEYS;
    for i := 0 to |keys|
      invariant Enveloped(decode, obj.value, keys[i..]) == Enveloped(decode, obj.value, keys)
    {
      assert keys[i..][1..] == keys[i + 1..];
      var s := ToString(obj.value, keys[i]);
      if |s| < 2 || s[0] != '{' {
        continue;
      }
      var inner := decode(s);
      if inner.None? {
        continue;
      }
      if HasTaKeys(inner.value) {
        r := BuildRecord(inner.value, now);
        return;
      }
    }
    return None;
  }

  /** What the later stages rely on: a parsed record is a user's or an event's, carries an account or a distinct id,
      and has a document that is stamped with the time of parsing and keyed by its own uuid. */
  lemma ParsedIsStorable(decode: string -> Option<Doc>, line: string, now: int)
    requires Parsed(decode, line, now).Some?
    ensures var rec := Parsed(decode, line, now).value;
            && (IsUserType(rec.typ) || IsEventType(rec.typ)) && (rec.account != "" || rec.distinct != "")
            && rec.doc.Some? && Stamped(rec.doc.value) && Ts(rec.doc.value) == now
            && rec.uuid != "" && "#uuid" in rec.doc.value && rec.doc.value["#uuid"] == Str(rec.uuid)
  {
    hide Flatten, Enveloped;
  }

  predicate HasAnyOf(payload: Doc, keys: seq<string>) {
    exists i :: 0 <= i < |keys| && keys[i] in payload
  }

  /** The payload that a field of an envelope holds as a string. */
  function Held(decode: string -> Option<Doc>, envelope: Doc, key: string): Option<Doc> {
    if key in envelope && envelope[key].Str? && "{" <= envelope[key].s && |envelope[key].s| >= 2
       && decode(envelope[key].s).Some?
       && HasAnyOf(decode(envelope[key].s).value, ["#time", "#type", "#event_name"])
    then decode(envelope[key].s) else None
  }

  lemma HasAnyIff(payload: Doc)
    ensures HasAnyOf(payload, ["#time", "#type", "#event_name"]) <==> HasTaKeys(payload)
  {
    var keys := ["#time", "#type", "#event_name"];
    assert keys[0] == "#time" && keys[1] == "#type" && keys[2] == "#event_name";
  }

  /** Which payload a line is read from: itself, if it has one of the marking fields, else the first of msg, message
      and log that holds one that has. */
  lemma PayloadOf(decode: string -> Option<Doc>, line: string, now: int)
    ensures Parsed(decode, line, now) ==
            if decode(line).None? then None
            else
              var d := decode(line).value;
              if HasAnyOf(d, ["#time", "#type", "#event_name"]) then RecordOf(d, now)
              else if Held(decode, d, "msg").Some? then RecordOf(Held(decode, d, "msg").value, now)
              else if Held(decode, d, "message").Some? then RecordOf(Held(decode, d, "message").value, now)
              else if Held(decode, d, "log").Some? then RecordOf(Held(decode, d, "log").value, now)
              else None
  {
    if decode(line).Some? {
      var d := decode(line).value;
      HasAnyIff(d);
      HeldIs(decode, d, "msg");
      HeldIs(decode, d, "message");
      HeldIs(decode, d, "log");
      hide HasAnyOf, HasTaKeys, RecordOf, Held;
      var keys := ENVELOPE_KEYS;
      EnvelopedStep(decode, d, keys);
      EnvelopedStep(decode, d, keys[1..]);
      EnvelopedStep(decode, d, keys[2..]);
      EnvelopedStep(decode, d, keys[3..]);
      assert keys[1..][1..] == keys[2..] && keys[2..][1..] == keys[3..];
    }
  }

  lemma EnvelopedStep(decode: string -> Option<Doc>, payload: Doc, keys: seq<string>)
    ensures Enveloped(decode, payload, keys) ==
            if keys == [] then None
            else if Enveloped(decode, payload, [keys[0]]).Some? then Enveloped(decode, payload, [keys[0]])
            else Enveloped(decode, payload, keys[1..])
  {
    if keys != [] {
      assert [keys[0]][1..] == [];
    }
  }

  lemma HeldIs(decode: string -> Option<Doc>, envelope: Doc, key: string)
    ensures Enveloped(decode, envelope, [key]) == Held(decode, envelope, key)
  {
    var s := ToString(envelope, key);
    if decode(s).Some? {
      HasAnyIff(decode(s).value);
    }
    assert [key][1..] == [];
    hide HasAnyOf, HasTaKeys;
  }

  /** Which payloads are accepted: a typed and keyed record of a user or an event, with a time and an account or a
      distinct id, and for an event a name. */
  lemma AcceptedIff(payload: Doc, now: int)
    ensures RecordOf(payload, now).Some? <==>
            && NonEmpty(payload, "#type") && NonEmpty(payload, "#uuid") && NonEmpty(payload, "#time")
            && (NonEmpty(payload, "#account_id") || NonEmpty(payload, "#distinct_id"))
            && ("user_" <= payload["#type"].s || ("track" <= payload["#type"].s && NonEmpty(payload, "#event_name")))
  {
  }

  predicate NonEmpty(payload: Doc, key: string) {
    key in payload && payload[key].Str? && payload[key].s != ""
  }

  /** Which field of the payload each part of a record is.  The document has every field of the payload, those of its
      properties over those at the root, and then the record's own time, uuid and stamp. */
  lemma RecordFields(payload: Doc, now: int, f: string)
    requires RecordOf(payload, now).Some?
    ensures var rec := RecordOf(payload, now).value;
            && payload.Items >= {("#type", Str(rec.typ)), ("#uuid", Str(rec.uuid))}
            && (rec.account != "" ==> ("#account_id", Str(rec.account)) in payload.Items)
            && (rec.distinct != "" ==> ("#distinct_id", Str(rec.distinct)) in payload.Items)
            && rec.doc.Some?
    ensures var rec := RecordOf(payload, now).value;
            var properties := if "properties" in payload && payload["properties"].Sub?
                              then payload["properties"].fields else map[];
            && Field(rec.doc.value, "_ts") == Some(Num(now)) && Field(rec.doc.value, "#uuid") == Field(payload, "#uuid")
            && Field(rec.doc.value, "#time") == Field(payload, "#time")
            && (f !in {"_ts", "#uuid", "#time"} ==>
                  Field(rec.doc.value, f) ==
                  if f == "properties" && f in payload && payload[f].Sub? then None
                  else if f in properties then Some(properties[f]) else Field(payload, f))
  {
  }
}
