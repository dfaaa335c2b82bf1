/** Tag-directed population of request records: BindQuery from the URL
    query (`query` tags, silent type-directed parsing), Bind from a JSON body
    (strict: unknown keys rejected) or a multipart form (`form` and `file`
    tags), each followed by struct validation. The validator, the media-type
    parser and the JSON tokenizer are oracles; the pagination record's
    validation rules are modelled concretely. */
module Binder {
  import opened Common
  import opened Structs
  import StrConv
  import Model

  /** url.Values */
  type Query = map<string, seq<string>>

  /** url.Values.Get: the first value under `key`, or "". */
  function Get(q: Query, key: string): string
  {
    if key in q && |q[key]| > 0 then q[key][0] else ""
  }

  /** validate.Struct on a record of the given layout. */
  type Validator = (seq<FieldDecl>, seq<Value>) -> Option<Error>

  // ---------------------------------------------------------------------
  // BindQuery
  // ---------------------------------------------------------------------

  /** One field of BindQuery. Only a tagged, exported field with a
      non-empty query value can change; strings take the value verbatim,
      int/int64/bool fields change only when the value parses, and every
      other kind is ignored. Parse failures raise no error. */
  function QueryField(f: FieldDecl, v: Value, q: Query): (r: Value)
    ensures Tag(f.tags, "query") == "" || Get(q, Tag(f.tags, "query")) == "" || !f.exported ==> r == v
    ensures !(f.kind.KString? || f.kind.KInt? || f.kind.KInt64? || f.kind.KBool?) ==> r == v
    ensures r != v ==> var val := Get(q, Tag(f.tags, "query"));
      && Tag(f.tags, "query") != "" && val != "" && f.exported
      && (f.kind.KString? ==> r == VString(val))
      && (f.kind.KInt? || f.kind.KInt64? ==> StrConv.ParseInt(val).Some? && r == VInt(StrConv.ParseInt(val).value))
      && (f.kind.KBool? ==> StrConv.ParseBool(val).Some? && r == VBool(StrConv.ParseBool(val).value))
    ensures var val := Get(q, Tag(f.tags, "query"));
      Tag(f.tags, "query") != "" && val != "" && f.exported ==>
        && (f.kind.KString? ==> r == VString(val))
        && (f.kind.KInt? || f.kind.KInt64? ==>
              r == (if StrConv.ParseInt(val).Some? then VInt(StrConv.ParseInt(val).value) else v))
        && (f.kind.KBool? ==>
              r == (if StrConv.ParseBool(val).Some? then VBool(StrConv.ParseBool(val).value) else v))
  {
    var tag := Tag(f.tags, "query");
    if tag == "" then v
    else
      var val := Get(q, tag);
      if val == "" || !f.exported then v
      else match f.kind
        case KString => VString(val)
        case KInt => if StrConv.ParseInt(val).Some? then VInt(StrConv.ParseInt(val).value) else v
        case KInt64 => if StrConv.ParseInt(val).Some? then VInt(StrConv.ParseInt(val).value) else v
        case KBool => if StrConv.ParseBool(val).Some? then VBool(StrConv.ParseBool(val).value) else v
        case _ => v
  }

  /** BindQuery: every field independently, then validation of the
      populated record, whose result is the only error. */
  function BindQuery(decls: seq<FieldDecl>, rec: seq<Value>, q: Query, validate: Validator)
    : (r: (seq<Value>, Option<Error>))
    requires |rec| == |decls|
    ensures |r.0| == |rec|
    ensures forall i :: 0 <= i < |rec| ==> r.0[i] == QueryField(decls[i], rec[i], q)
    ensures r.1 == validate(decls, r.0)
  {
    var out := seq(|rec|, i requires 0 <= i < |rec| => QueryField(decls[i], rec[i], q));
    (out, validate(decls, out))
  }

  /** Decimal integers survive the trip through the query string: an int
      field whose query value was rendered with FormatInt is bound to
      exactly that number. */
  lemma QueryIntRoundTrip(f: FieldDecl, v: Value, q: Query, n: int)
    requires Tag(f.tags, "query") != "" && f.exported && (f.kind.KInt? || f.kind.KInt64?)
    requires InInt64(n) && Get(q, Tag(f.tags, "query")) == StrConv.FormatInt(n)
    ensures QueryField(f, v, q) == VInt(n)
  {
    StrConv.ParseFormatRoundTrip(n);
    assert |StrConv.FormatInt(n)| > 0;
  }

  /** So do booleans rendered as "true" or "false". */
  lemma QueryBoolRoundTrip(f: FieldDecl, v: Value, q: Query, b: bool)
    requires Tag(f.tags, "query") != "" && f.exported && f.kind.KBool?
    requires Get(q, Tag(f.tags, "query")) == (if b then "true" else "false")
    ensures QueryField(f, v, q) == VBool(b)
  {
  }

  // ---------------------------------------------------------------------
  // JSON binding
  // ---------------------------------------------------------------------

  /** One `"key": value` member of the body's top-level object. */
  datatype Member = Member(key: string, value: Value)

  /** The tokenizer's view of the body: a syntax error, or an object. */
  datatype JsonDoc = Malformed(err: Error) | Object(members: seq<Member>)

  /** The JSON name of a field: the `json` tag up to its first comma, or
      the field name when that is empty; "-" hides the field. */
  function JsonName(f: FieldDecl): Option<string>
  {
    var tag := Tag(f.tags, "json");
    if tag == "-" then None
    else
      var name := TagName(tag);
      Some(if name == "" then f.name else name)
  }

  /** The part of a tag before the first comma. */
  function TagName(tag: string): (r: string)
    ensures |r| <= |tag| && r == tag[..|r|]
    decreases |tag|
  {
    if |tag| == 0 || tag[0] == ',' then "" else [tag[0]] + TagName(tag[1..])
  }

  /** An exported field whose JSON name is `key`. */
  predicate Named(f: FieldDecl, key: string)
  {
    f.exported && JsonName(f) == Some(key)
  }

  /** A field whose JSON name comes from its `json` tag. */
  predicate Tagged(f: FieldDecl)
  {
    TagName(Tag(f.tags, "json")) != ""
  }

  /** Two fields compete for `key` and neither dominates: two tagged ones,
      or two untagged ones with no tagged one beside them. */
  predicate Ambiguous(decls: seq<FieldDecl>, key: string)
  {
    exists i, j :: 0 <= i < j < |decls| && Named(decls[i], key) && Named(decls[j], key)
      && Tagged(decls[i]) == Tagged(decls[j])
      && (forall k :: 0 <= k < |decls| && Named(decls[k], key) && Tagged(decls[k]) ==> Tagged(decls[i]))
  }

  /** The first field at or after `from` that is named `key` and is tagged
      exactly when `tagged` is. */
  function NextNamed(decls: seq<FieldDecl>, key: string, tagged: bool, from: nat): (r: Option<nat>)
    requires from <= |decls|
    ensures r.Some? ==> from <= r.value < |decls| && Named(decls[r.value], key) && Tagged(decls[r.value]) == tagged
    ensures r.Some? ==> forall i :: from <= i < r.value ==> !(Named(decls[i], key) && Tagged(decls[i]) == tagged)
    ensures r.None? ==> forall i :: from <= i < |decls| ==> !(Named(decls[i], key) && Tagged(decls[i]) == tagged)
    decreases |decls| - from
  {
    if from == |decls| then None
    else if Named(decls[from], key) && Tagged(decls[from]) == tagged then Some(from)
    else NextNamed(decls, key, tagged, from + 1)
  }

  /** The field a member key decodes into, by encoding/json's rule for
      fields at one level: a tagged field beats untagged ones, a single
      candidate is chosen, and two candidates of the same standing cancel
      out so that the key is unknown. */
  function FieldFor(decls: seq<FieldDecl>, key: string): (r: Option<nat>)
    ensures r.Some? ==> r.value < |decls| && Named(decls[r.value], key)
    ensures r.Some? ==> forall j :: 0 <= j < |decls| && j != r.value && Named(decls[j], key) ==>
              Tagged(decls[r.value]) && !Tagged(decls[j])
    ensures r.None? <==> (forall i :: 0 <= i < |decls| ==> !Named(decls[i], key)) || Ambiguous(decls, key)
  {
    match NextNamed(decls, key, true, 0)
    case Some(t) =>
      var t' := NextNamed(decls, key, true, t + 1);
      if t'.Some? then
        assert Named(decls[t], key) && Named(decls[t'.value], key);
        None
      else Some(t)
    case None =>
      match NextNamed(decls, key, false, 0)
      case Some(u) =>
        var u' := NextNamed(decls, key, false, u + 1);
        if u'.Some? then
          assert Named(decls[u], key) && Named(decls[u'.value], key);
          None
        else Some(u)
      case None => None
  }

  /** Whether a decoded JSON value can be stored in a field of this kind;
      integers must fit in 64 bits. */
  predicate Fits(k: Kind, v: Value)
  {
    match k
    case KString => v.VString?
    case KInt => v.VInt? && InInt64(v.i)
    case KInt64 => v.VInt? && InInt64(v.i)
    case KBool => v.VBool?
    case KTime => v.VTime?
    case KStruct(_) => v.VStruct?
    case _ => false
  }

  /** The decoder keeps going after a bad member and reports the first
      error it saved. */
  function Save(saved: Option<Error>, e: Error): Option<Error>
  {
    if saved.Some? then saved else Some(e)
  }

  /** Member `m` is stored into field `j`: its key selects `j` and its
      value fits. */
  predicate Stored(decls: seq<FieldDecl>, m: Member, j: int)
  {
    0 <= j < |decls| && FieldFor(decls, m.key) == Some(j) && Fits(decls[j].kind, m.value)
  }

  /** Decoding one member with DisallowUnknownFields: an unknown key or an
      ill-typed value is skipped and its error saved (the first error is
      kept); a member that fits is stored into its field. */
  function DecodeMember(decls: seq<FieldDecl>, rec: seq<Value>, m: Member, saved: Option<Error>)
    : (r: (seq<Value>, Option<Error>))
    requires |rec| == |decls|
    ensures |r.0| == |rec|
    ensures forall j :: 0 <= j < |rec| ==> r.0[j] == if Stored(decls, m, j) then m.value else rec[j]
    ensures saved.Some? ==> r.1 == saved
    ensures r.1.None? <==> saved.None? && FieldFor(decls, m.key).Some?
                           && Fits(decls[FieldFor(decls, m.key).value].kind, m.value)
  {
    match FieldFor(decls, m.key)
    case None => (rec, Save(saved, Text("json: unknown field \"" + m.key + "\"")))
    case Some(i) =>
      if Fits(decls[i].kind, m.value) then (rec[i := m.value], saved)
      else (rec, Save(saved, Text("json: cannot unmarshal into Go struct field " + decls[i].name)))
  }

  /** Decoding the members in order; the decoder keeps going after a bad
      member, so every member that fits is stored and a later member for
      the same field overwrites an earlier one. */
  function DecodeMembers(decls: seq<FieldDecl>, rec: seq<Value>, ms: seq<Member>, saved: Option<Error>)
    : (r: (seq<Value>, Option<Error>))
    requires |rec| == |decls|
    ensures |r.0| == |rec|
    ensures saved.Some? ==> r.1 == saved
    ensures r.1.None? <==> saved.None? && forall k :: 0 <= k < |ms| ==>
      FieldFor(decls, ms[k].key).Some? && Fits(decls[FieldFor(decls, ms[k].key).value].kind, ms[k].value)
    decreases |ms|
  {
    if |ms| == 0 then (rec, saved)
    else
      var step := DecodeMember(decls, rec, ms[0], saved);
      DecodeMembers(decls, step.0, ms[1..], step.1)
  }

  /** A field that no fitting member is stored into keeps its value. */
  lemma {:induction false} DecodeMembersUntouched(decls: seq<FieldDecl>, rec: seq<Value>, ms: seq<Member>,
                                                  saved: Option<Error>, j: int)
    requires |rec| == |decls| && 0 <= j < |rec|
    requires forall k :: 0 <= k < |ms| ==> !Stored(decls, ms[k], j)
    ensures DecodeMembers(decls, rec, ms, saved).0[j] == rec[j]
    decreases |ms|
  {
    if |ms| > 0 {
      var step := DecodeMember(decls, rec, ms[0], saved);
      assert !Stored(decls, ms[0], j);
      assert forall k :: 0 <= k < |ms[1..]| ==> ms[1..][k] == ms[k + 1];
      DecodeMembersUntouched(decls, step.0, ms[1..], step.1, j);
    }
  }

  /** The last member that is stored into a field decides its value. */
  lemma {:induction false} DecodeMembersLastWins(decls: seq<FieldDecl>, rec: seq<Value>, ms: seq<Member>,
                                                 saved: Option<Error>, j: int, k: int)
    requires |rec| == |decls| && 0 <= k < |ms| && Stored(decls, ms[k], j)
    requires forall k' :: k < k' < |ms| ==> !Stored(decls, ms[k'], j)
    ensures DecodeMembers(decls, rec, ms, saved).0[j] == ms[k].value
    decreases |ms|
  {
    var step := DecodeMember(decls, rec, ms[0], saved);
    assert forall i :: 0 <= i < |ms[1..]| ==> ms[1..][i] == ms[i + 1];
    if k == 0 {
      DecodeMembersUntouched(decls, step.0, ms[1..], step.1, j);
    } else {
      DecodeMembersLastWins(decls, step.0, ms[1..], step.1, j, k - 1);
    }
  }

  /** bindJSON */
  function DecodeJSON(decls: seq<FieldDecl>, rec: seq<Value>, doc: JsonDoc): (r: (seq<Value>, Option<Error>))
    requires |rec| == |decls|
    ensures |r.0| == |rec|
    ensures doc.Malformed? ==> r == (rec, Some(doc.err))
  {
    match doc
    case Malformed(e) => (rec, Some(e))
    case Object(ms) => DecodeMembers(decls, rec, ms, None)
  }

  /** Unknown keys are rejected: a body naming a key that no exported field
      carries always fails to bind. */
  lemma UnknownKeyRejected(decls: seq<FieldDecl>, rec: seq<Value>, ms: seq<Member>, k: int)
    requires |rec| == |decls| && 0 <= k < |ms|
    requires forall i :: 0 <= i < |decls| ==> !Named(decls[i], ms[k].key)
    ensures DecodeJSON(decls, rec, Object(ms)).1.Some?
  {
  }

  // ---------------------------------------------------------------------
  // Multipart binding
  // ---------------------------------------------------------------------

  /** The parsed multipart request: the parse error, if any, the form values
      (query and body values together, as r.Form holds them) and the file
      parts by field name. */
  datatype Form = Form(parseErr: Option<Error>, values: map<string, seq<string>>, files: map<string, seq<FileHeader>>)

  datatype Bound = Bound(rec: seq<Value>, err: Option<Error>) | BindPanicked(reason: string)

  /** Whether the form pass writes field `f`. */
  predicate FormWrites(f: FieldDecl, form: Form)
  {
    Tag(f.tags, "form") != "" && Get(form.values, Tag(f.tags, "form")) != ""
  }

  /** Whether the file pass writes field `f`. */
  predicate FileWrites(f: FieldDecl, form: Form)
  {
    var tag := Tag(f.tags, "file");
    tag != "" && tag in form.files && |form.files[tag]| > 0
  }

  /** Whether binding writes field `f` through a setter that cannot take
      it: a form value into a non-string or unexported field, or a file
      into a non-file or unexported field. */
  predicate BadTarget(f: FieldDecl, form: Form)
  {
    || (FormWrites(f, form) && !(f.kind.KString? && f.exported))
    || (FileWrites(f, form) && !(f.kind.KFile? && f.exported))
  }

  const SetStringPanic: string := "reflect: SetString on a field that is not an exported string"
  const SetFilePanic: string := "reflect.Set: *multipart.FileHeader is not assignable to the field"

  /** bindMultipart: parse, then set every form-tagged field that has a
      non-empty value, then every file-tagged field that has a file, with
      its first file. Setting a field of the wrong kind, or an unexported
      one, panics. */
  function BindMultipart(decls: seq<FieldDecl>, rec: seq<Value>, form: Form): (r: Bound)
    requires |rec| == |decls|
    ensures form.parseErr.Some? ==> r == Bound(rec, form.parseErr)
    ensures r.Bound? ==> r.err == form.parseErr && |r.rec| == |rec|
    ensures r.Bound? && form.parseErr.None? ==> forall i :: 0 <= i < |rec| ==>
      && (FileWrites(decls[i], form) ==> r.rec[i] == VFile(Some(form.files[Tag(decls[i].tags, "file")][0])))
      && (!FileWrites(decls[i], form) && FormWrites(decls[i], form) ==>
            r.rec[i] == VString(Get(form.values, Tag(decls[i].tags, "form"))))
      && (!FileWrites(decls[i], form) && !FormWrites(decls[i], form) ==> r.rec[i] == rec[i])
    ensures r.BindPanicked? <==> form.parseErr.None? && exists i :: 0 <= i < |decls| && BadTarget(decls[i], form)
  {
    if form.parseErr.Some? then Bound(rec, form.parseErr)
    else if exists i :: 0 <= i < |decls| && FormWrites(decls[i], form) && !(decls[i].kind.KString? && decls[i].exported)
    then BindPanicked(SetStringPanic)
    else
      var afterForm := seq(|rec|, i requires 0 <= i < |rec| =>
        if FormWrites(decls[i], form) then VString(Get(form.values, Tag(decls[i].tags, "form"))) else rec[i]);
      if exists i :: 0 <= i < |decls| && FileWrites(decls[i], form) && !(decls[i].kind.KFile? && decls[i].exported)
      then BindPanicked(SetFilePanic)
      else
        var afterFiles := seq(|rec|, i requires 0 <= i < |rec| =>
          if FileWrites(decls[i], form) then VFile(Some(form.files[Tag(decls[i].tags, "file")][0])) else afterForm[i]);
        Bound(afterFiles, None)
  }

  // ---------------------------------------------------------------------
  // Bind
  // ---------------------------------------------------------------------

  /** The request body as the binder sees it. */
  datatype Body = Body(contentType: string, json: JsonDoc, form: Form)

  /** Bind: dispatch on the media type (`mediaType` is mime.ParseMediaType's
      first result), bind, and validate only when binding succeeded. */
  function Bind(body: Body, mediaType: string -> string, decls: seq<FieldDecl>, rec: seq<Value>,
                validate: Validator): (r: Bound)
    requires |rec| == |decls|
    ensures mediaType(body.contentType) !in {"application/json", "multipart/form-data"} ==>
              r == Bound(rec, Some(Text("unsupported content type")))
    ensures mediaType(body.contentType) == "application/json" ==>
      var d := DecodeJSON(decls, rec, body.json);
      r == Bound(d.0, if d.1.Some? then d.1 else validate(decls, d.0))
    ensures mediaType(body.contentType) == "multipart/form-data" ==>
      var m := BindMultipart(decls, rec, body.form);
      && (m.BindPanicked? ==> r == m)
      && (m.Bound? && m.err.Some? ==> r == m)
      && (m.Bound? && m.err.None? ==> r == Bound(m.rec, validate(decls, m.rec)))
  {
    var media := mediaType(body.contentType);
    if media == "application/json" then
      var d := DecodeJSON(decls, rec, body.json);
      if d.1.Some? then Bound(d.0, d.1) else Bound(d.0, validate(decls, d.0))
    else if media == "multipart/form-data" then
      match BindMultipart(decls, rec, body.form)
      case BindPanicked(reason) => BindPanicked(reason)
      case Bound(out, err) => if err.Some? then Bound(out, err) else Bound(out, validate(decls, out))
    else Bound(rec, Some(Text("unsupported content type")))
  }

  /** The validator is consulted only after a successful binding: an
      unsupported media type or a binding error gives the same answer
      under any validator. */
  lemma BindValidatesLast(body: Body, mediaType: string -> string, decls: seq<FieldDecl>, rec: seq<Value>,
                          v1: Validator, v2: Validator)
    requires |rec| == |decls|
    requires Bind(body, mediaType, decls, rec, v1).Bound? && Bind(body, mediaType, decls, rec, v1).err.Some?
    requires v1(decls, Bind(body, mediaType, decls, rec, v1).rec).None?
    ensures Bind(body, mediaType, decls, rec, v2) == Bind(body, mediaType, decls, rec, v1)
  {
  }

  // ---------------------------------------------------------------------
  // PaginationRequest
  // ---------------------------------------------------------------------

  /** PaginationRequest{Limit int `query:"limit"`; Offset int `query:"offset"`}
      with validate tags "omitempty,min=1,max=100" and "omitempty,min=0". */
  const PaginationDecls: seq<FieldDecl> := [
    FieldDecl("Limit", map["query" := "limit", "validate" := "omitempty,min=1,max=100"], KInt, false, true),
    FieldDecl("Offset", map["query" := "offset", "validate" := "omitempty,min=0"], KInt, false, true)
  ]

  /** The validator on PaginationRequest: a zero value is skipped
      (omitempty); otherwise Limit must lie in [1, 100] and Offset must not
      be negative. All failing fields are reported, in field order. */
  function PaginationRules(decls: seq<FieldDecl>, rec: seq<Value>): (r: Option<Error>)
    ensures r.None? <==> (Model.IntAt(rec, 0) == 0 || 1 <= Model.IntAt(rec, 0) <= 100) && Model.IntAt(rec, 1) >= 0
    ensures r.Some? ==> r.value.ValidationErrors? && 1 <= |r.value.errs| <= 2
  {
    var limit := Model.IntAt(rec, 0);
    var offset := Model.IntAt(rec, 1);
    var limitErrs :=
      if limit != 0 && limit < 1 then [FieldError("PaginationRequest.Limit", "Limit", "min")]
      else if limit != 0 && limit > 100 then [FieldError("PaginationRequest.Limit", "Limit", "max")]
      else [];
    var offsetErrs :=
      if offset != 0 && offset < 0 then [FieldError("PaginationRequest.Offset", "Offset", "min")] else [];
    var errs := limitErrs + offsetErrs;
    if |errs| == 0 then None else Some(ValidationErrors(errs))
  }

  /** BindQuery on a PaginationRequest with its own validation rules. */
  function BindPagination(q: Query): (r: (seq<Value>, Option<Error>))
    ensures |r.0| == 2 && r.0[0].VInt? && r.0[1].VInt?
    ensures r.1 == PaginationRules(PaginationDecls, r.0)
  {
    BindQuery(PaginationDecls, ZeroRecord(PaginationDecls), q, PaginationRules)
  }

  /** A limit rendered with FormatInt and no offset bind to exactly that
      limit and offset 0, and pass validation iff the limit is 0 (omitted)
      or within [1, 100]. */
  lemma PaginationLimit(q: Query, n: int)
    requires InInt64(n) && Get(q, "limit") == StrConv.FormatInt(n) && Get(q, "offset") == ""
    ensures BindPagination(q).0 == [VInt(n), VInt(0)]
    ensures BindPagination(q).1.None? <==> n == 0 || 1 <= n <= 100
  {
    QueryIntRoundTrip(PaginationDecls[0], VInt(0), q, n);
    assert ZeroRecord(PaginationDecls) == [VInt(0), VInt(0)];
  }
}
