/**
 * `demoSchema`, the zod object schema that POST /api/demos and PUT /api/demos/:id apply to
 * the JSON request body: `title` a string of length at least 1; `description`, `type` and
 * `content` strings; `thumbnail` and `url` optional strings; `isPublic` an optional boolean.
 * Keys outside the schema are ignored.
 */
module DemoSchema {
  import opened Wrappers

  /** A JSON value at one key of the body; nested arrays and objects are not told apart. */
  datatype Value = Str(s: string) | Bool(b: bool) | Num(n: int) | Null | Composite

  /** A parsed JSON request body. */
  datatype Body = Object(fields: map<string, Value>) | NotObject

  /** What a body that passes the schema carries; an absent optional key is None. */
  datatype DemoInput = DemoInput(
    title: string,
    description: string,
    kind: string,
    content: string,
    thumbnail: Option<string>,
    url: Option<string>,
    isPublic: Option<bool>)

  const SchemaKeys: set<string> := {"title", "description", "type", "content", "thumbnail", "url", "isPublic"}

  function Required(fields: map<string, Value>, key: string): Option<string> {
    if key in fields && fields[key].Str? then Some(fields[key].s) else None
  }

  /** Some(None) when the key is absent, Some(Some(s)) for a string, None otherwise. */
  function OptionalString(fields: map<string, Value>, key: string): Option<Option<string>> {
    if key !in fields then Some(None)
    else if fields[key].Str? then Some(Some(fields[key].s))
    else None
  }

  function OptionalBool(fields: map<string, Value>, key: string): Option<Option<bool>> {
    if key !in fields then Some(None)
    else if fields[key].Bool? then Some(Some(fields[key].b))
    else None
  }

  /** `demoSchema.safeParse(body)`: the fields of a conforming body, or None. */
  function Parse(body: Body): Option<DemoInput> {
    if body.NotObject? then None
    else
      var f := body.fields;
      match (Required(f, "title"), Required(f, "description"), Required(f, "type"), Required(f, "content"),
             OptionalString(f, "thumbnail"), OptionalString(f, "url"), OptionalBool(f, "isPublic"))
      case (Some(title), Some(description), Some(kind), Some(content), Some(thumbnail), Some(url), Some(isPublic)) =>
        if |title| >= 1 then Some(DemoInput(title, description, kind, content, thumbnail, url, isPublic)) else None
      case _ => None
  }

  /** The required keys of the object a client sends for `input`. */
  function RequiredEntries(input: DemoInput): map<string, Value> {
    map["title" := Str(input.title), "description" := Str(input.description),
        "type" := Str(input.kind), "content" := Str(input.content)]
  }

  /** The JSON object a client sends for `input`, leaving absent optional keys out. */
  function Encode(input: DemoInput): Body {
    var m := RequiredEntries(input);
    var m1 := if input.thumbnail.Some? then m["thumbnail" := Str(input.thumbnail.value)] else m;
    var m2 := if input.url.Some? then m1["url" := Str(input.url.value)] else m1;
    Object(if input.isPublic.Some? then m2["isPublic" := Bool(input.isPublic.value)] else m2)
  }

  /** Two field maps agree on every key of the schema. */
  predicate AgreeOnSchema(a: map<string, Value>, b: map<string, Value>) {
    forall k :: k in SchemaKeys ==> (k in a <==> k in b) && (k in a ==> a[k] == b[k])
  }

  /** The schema accepts an encoded input exactly when its title is non-empty. */
  lemma ParseEncode(input: DemoInput)
    ensures Parse(Encode(input)) == if |input.title| >= 1 then Some(input) else None
  {
    EncodeFields(input);
    var e := Encode(input).fields;
    assert Required(e, "title") == Some(input.title);
    assert OptionalString(e, "thumbnail") == Some(input.thumbnail);
    assert OptionalString(e, "url") == Some(input.url);
    assert OptionalBool(e, "isPublic") == Some(input.isPublic);
  }

  lemma RequiredFields(input: DemoInput)
    ensures var e := RequiredEntries(input);
      && e.Keys == {"title", "description", "type", "content"}
      && e["title"] == Str(input.title) && e["description"] == Str(input.description)
      && e["type"] == Str(input.kind) && e["content"] == Str(input.content)
  {
  }

  /** Where each field of `input` sits in its encoding. */
  lemma EncodeFields(input: DemoInput)
    ensures var e := Encode(input).fields;
      && "title" in e && e["title"] == Str(input.title)
      && "description" in e && e["description"] == Str(input.description)
      && "type" in e && e["type"] == Str(input.kind)
      && "content" in e && e["content"] == Str(input.content)
      && ("thumbnail" in e <==> input.thumbnail.Some?)
      && (input.thumbnail.Some? ==> e["thumbnail"] == Str(input.thumbnail.value))
      && ("url" in e <==> input.url.Some?)
      && (input.url.Some? ==> e["url"] == Str(input.url.value))
      && ("isPublic" in e <==> input.isPublic.Some?)
      && (input.isPublic.Some? ==> e["isPublic"] == Bool(input.isPublic.value))
      && e.Keys <= SchemaKeys
  {
    RequiredFields(input);
  }

  lemma AgreeingBodyParses(body: Body, input: DemoInput)
    requires body.Object? && |input.title| >= 1 && AgreeOnSchema(body.fields, Encode(input).fields)
    ensures Parse(body) == Some(input)
  {
    EncodeFields(input);
    var f, e := body.fields, Encode(input).fields;
    assert "title" in SchemaKeys && "description" in SchemaKeys && "type" in SchemaKeys;
    assert "content" in SchemaKeys && "thumbnail" in SchemaKeys && "url" in SchemaKeys && "isPublic" in SchemaKeys;
    assert Required(f, "title") == Some(input.title);
    assert Required(f, "description") == Some(input.description);
    assert Required(f, "type") == Some(input.kind);
    assert Required(f, "content") == Some(input.content);
    assert OptionalString(f, "thumbnail") == Some(input.thumbnail);
    assert OptionalString(f, "url") == Some(input.url);
    assert OptionalBool(f, "isPublic") == Some(input.isPublic);
  }

  lemma ParsedBodyAgrees(body: Body, input: DemoInput)
    requires Parse(body) == Some(input)
    ensures body.Object? && |input.title| >= 1 && AgreeOnSchema(body.fields, Encode(input).fields)
  {
    EncodeFields(input);
    var f, e := body.fields, Encode(input).fields;
    forall k | k in SchemaKeys
      ensures (k in f <==> k in e) && (k in f ==> f[k] == e[k])
    {
      assert k == "title" || k == "description" || k == "type" || k == "content"
        || k == "thumbnail" || k == "url" || k == "isPublic";
    }
  }

  /**
   * A body parses to `input` exactly when it is an object that agrees with the encoding of
   * `input` on the schema's keys and `input` has a non-empty title: parsing loses only the
   * keys outside the schema.
   */
  lemma ParseCharacterized(body: Body, input: DemoInput)
    ensures Parse(body) == Some(input) <==>
      body.Object? && |input.title| >= 1 && AgreeOnSchema(body.fields, Encode(input).fields)
  {
    if body.Object? && |input.title| >= 1 && AgreeOnSchema(body.fields, Encode(input).fields) {
      AgreeingBodyParses(body, input);
    }
    if Parse(body) == Some(input) {
      ParsedBodyAgrees(body, input);
    }
  }

  /** Each rule of the schema, one by one, rejects a body that breaks it. */
  lemma ParseRejects(body: Body)
    ensures body.NotObject? ==> Parse(body).None?
    ensures body.Object? && Required(body.fields, "title") == Some("") ==> Parse(body).None?
    ensures body.Object? && ("title" !in body.fields || !body.fields["title"].Str?) ==> Parse(body).None?
    ensures body.Object? && ("description" !in body.fields || !body.fields["description"].Str?) ==> Parse(body).None?
    ensures body.Object? && ("type" !in body.fields || !body.fields["type"].Str?) ==> Parse(body).None?
    ensures body.Object? && ("content" !in body.fields || !body.fields["content"].Str?) ==> Parse(body).None?
    ensures body.Object? && "thumbnail" in body.fields && !body.fields["thumbnail"].Str? ==> Parse(body).None?
    ensures body.Object? && "url" in body.fields && !body.fields["url"].Str? ==> Parse(body).None?
    ensures body.Object? && "isPublic" in body.fields && !body.fields["isPublic"].Bool? ==> Parse(body).None?
  {
  }
}
