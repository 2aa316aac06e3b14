/**
  `OutputParser.parse_tag_response`: the validation of a model answer that has already been decoded
  from JSON. Decoding itself is not modelled: the parser receives either the decoder's failure
  message, a top-level value that is not an object, or the object's key/value map. Nested JSON
  containers are kept only by their size, which is all their truthiness depends on.
*/
module OutputParsing {
  import opened Wrappers
  import opened Text

  /** A decoded JSON value; a number records whether it was written as an integer literal, which decodes to an `int`. */
  datatype Json = JNull | JBool(b: bool) | JNumber(n: real, integral: bool) | JString(s: string) | JArray(length: nat) | JObject(size: nat)

  /** Python truthiness of a decoded JSON value. */
  predicate JTruthy(v: Json) {
    match v
    case JNull => false
    case JBool(b) => b
    case JNumber(n, _) => n != 0.0
    case JString(s) => s != ""
    case JArray(n) => n > 0
    case JObject(n) => n > 0
  }

  /** The Python type name of a decoded value, as it appears in an `AttributeError`. */
  function TypeName(v: Json): string {
    match v
    case JNull => "NoneType"
    case JBool(_) => "bool"
    case JNumber(_, integral) => if integral then "int" else "float"
    case JString(_) => "str"
    case JArray(_) => "list"
    case JObject(_) => "dict"
  }

  datatype Decoded = DecodeFailed(message: string) | NotAnObject(value: Json) | Object(fields: map<string, Json>)

  /** `data.get(key)`: a missing key reads as `None`. */
  function Lookup(fields: map<string, Json>, key: string): Json {
    if key in fields then fields[key] else JNull
  }

  datatype ParsedTagResponse = ParsedTagResponse(
    tag1: Option<string>,
    tag2: Option<string>,
    tag3: Option<string>,
    confidence: real,
    reasoning: Option<string>,
    isValid: bool,
    error: Option<string>)

  /** A response carrying only `is_valid=False` and an error; every other field has its default. */
  function Invalid(msg: string): ParsedTagResponse {
    ParsedTagResponse(None, None, None, 0.0, None, false, Some(msg))
  }

  const JsonErrorPrefix := "Could not parse JSON: "
  const NoTag1Message := "No valid tag1 found in response"
  const ValidationMessage := "validation error for ParsedTagResponse"

  function DigitText(d: nat): string
    requires d < 10
  {
    [(48 + d) as char]
  }

  /** The error naming the first tag that is not allowed; `t` is the tag as received. */
  function RejectMessage(idx: nat, t: string): string
    requires idx < 10
  {
    "TAG" + DigitText(idx) + " = '" + t + "' is not in available_tags"
  }

  datatype OutputParser = OutputParser(availableTags: seq<string>)

  /** `OutputParser(available_tags)`: a missing list is stored as the empty list. */
  function NewOutputParser(availableTags: Option<seq<string>>): (p: OutputParser)
    ensures availableTags.None? ==> p.availableTags == []
    ensures availableTags.Some? ==> p.availableTags == availableTags.value
  {
    OutputParser(if availableTags.Some? && availableTags.value != [] then availableTags.value else [])
  }

  /** `available_tags or self.available_tags`: the call's list unless it is missing or empty. */
  function TagsToUse(p: OutputParser, availableTags: Option<seq<string>>): (tags: seq<string>)
    ensures availableTags.Some? && availableTags.value != [] ==> tags == availableTags.value
    ensures availableTags.None? || availableTags.value == [] ==> tags == p.availableTags
  {
    if availableTags.Some? && availableTags.value != [] then availableTags.value else p.availableTags
  }

  /** A tag passes the check when it is falsy, or a string whose upper-case form is allowed. */
  predicate TagOk(v: Json, allowed: seq<string>) {
    !JTruthy(v) || (v.JString? && Upper(v.s) in allowed)
  }

  /** Tag `k` (1-based) is the first that fails the check, and it is a string. */
  predicate FirstRejectedAt(ts: seq<Json>, allowed: seq<string>, k: int) {
    1 <= k <= |ts| && ts[k - 1].JString? && !TagOk(ts[k - 1], allowed)
    && forall i :: 0 <= i < k - 1 ==> TagOk(ts[i], allowed)
  }

  datatype TagCheck = AllAllowed | Rejected(index: nat, tag: string) | NotAString(index: nat, value: Json)

  /**
    The loop over `(tag1, tag2, tag3)` numbered from `idx`: it stops at the first truthy tag that
    is not allowed, or at the first truthy tag that has no `upper` method.
  */
  function CheckTags(ts: seq<Json>, allowed: seq<string>, idx: nat): (r: TagCheck)
    ensures r.AllAllowed? <==> forall i :: 0 <= i < |ts| ==> TagOk(ts[i], allowed)
    ensures r.Rejected? ==>
              idx <= r.index < idx + |ts| && ts[r.index - idx] == JString(r.tag)
              && !TagOk(ts[r.index - idx], allowed)
              && forall i :: 0 <= i < r.index - idx ==> TagOk(ts[i], allowed)
    ensures r.NotAString? ==>
              idx <= r.index < idx + |ts| && ts[r.index - idx] == r.value
              && JTruthy(r.value) && !r.value.JString?
              && forall i :: 0 <= i < r.index - idx ==> TagOk(ts[i], allowed)
    decreases |ts|
  {
    if ts == [] then AllAllowed
    else if !JTruthy(ts[0]) then CheckTags(ts[1..], allowed, idx + 1)
    else if !ts[0].JString? then NotAString(idx, ts[0])
    else if Upper(ts[0].s) !in allowed then Rejected(idx, ts[0].s)
    else CheckTags(ts[1..], allowed, idx + 1)
  }

  /** A present, non-empty tag in upper case; `None` otherwise. */
  function OutTag(v: Json): Option<string> {
    if JTruthy(v) && v.JString? then Some(Upper(v.s)) else None
  }

  /**
    `confidence or 0.0` handed to a `float` field: a falsy value becomes 0.0, a number is kept,
    `true` becomes 1.0, a string is converted by `coerceFloat` (the field's string coercion), and
    anything else is a validation error.
  */
  function Confidence(v: Json, coerceFloat: string -> Option<real>): (r: Option<real>)
    ensures !JTruthy(v) ==> r == Some(0.0)
    ensures v.JNumber? ==> r == Some(v.n)
    ensures v == JBool(true) ==> r == Some(1.0)
    ensures v.JString? && JTruthy(v) ==> r == coerceFloat(v.s)
    ensures JTruthy(v) && (v.JArray? || v.JObject?) ==> r.None?
  {
    if !JTruthy(v) then Some(0.0)
    else match v
      case JNumber(n, _) => Some(n)
      case JBool(_) => Some(1.0)
      case JString(s) => coerceFloat(s)
      case _ => None
  }

  /** `reasoning` handed to an `Optional[str]` field: `None` or a string, anything else is a validation error. */
  function Reasoning(v: Json): (r: Option<Option<string>>)
    ensures r.Some? <==> v.JNull? || v.JString?
  {
    match v
    case JNull => Some(None)
    case JString(s) => Some(Some(s))
    case _ => None
  }

  function Tags(fields: map<string, Json>): (ts: seq<Json>)
    ensures |ts| == 3
  {
    [Lookup(fields, "TAG1"), Lookup(fields, "TAG2"), Lookup(fields, "TAG3")]
  }

  /**
    `parse_tag_response`. `Ok` is a returned response, `Err` an exception that escapes: only a
    JSON decode error is caught, so a non-object top level, a truthy non-string tag and a
    confidence or reasoning the response fields refuse all raise.
  */
  function ParseTagResponse(p: OutputParser, decoded: Decoded, availableTags: Option<seq<string>>,
                            coerceFloat: string -> Option<real>): (r: Result<ParsedTagResponse>)
    ensures decoded.DecodeFailed? ==> r == Ok(Invalid(JsonErrorPrefix + decoded.message))
    ensures decoded.NotAnObject? ==> r.Err?
    ensures decoded.Object? && !JTruthy(Lookup(decoded.fields, "TAG1")) ==> r == Ok(Invalid(NoTag1Message))
  {
    var tagsToUse := TagsToUse(p, availableTags);
    match decoded
    case DecodeFailed(msg) => Ok(Invalid(JsonErrorPrefix + msg))
    case NotAnObject(v) => Err("'" + TypeName(v) + "' object has no attribute 'get'")
    case Object(fields) =>
      var ts := Tags(fields);
      if !JTruthy(ts[0]) then Ok(Invalid(NoTag1Message))
      else match CheckTags(ts, tagsToUse, 1)
        case NotAString(_, v) => Err("'" + TypeName(v) + "' object has no attribute 'upper'")
        case Rejected(idx, t) => Ok(Invalid(RejectMessage(idx, t)))
        case AllAllowed =>
          var conf := Confidence(Lookup(fields, "CONFIDENCE"), coerceFloat);
          var reasoning := Reasoning(Lookup(fields, "REASONING"));
          if conf.None? || reasoning.None? then Err(ValidationMessage)
          else Ok(ParsedTagResponse(OutTag(ts[0]), OutTag(ts[1]), OutTag(ts[2]), conf.value, reasoning.value, true, None))
  }

  /** A decode failure gives an invalid response whose error starts with the fixed prefix. */
  lemma DecodeFailureInvalid(p: OutputParser, msg: string, availableTags: Option<seq<string>>,
                             coerceFloat: string -> Option<real>)
    ensures var r := ParseTagResponse(p, DecodeFailed(msg), availableTags, coerceFloat);
      r.Ok? && !r.value.isValid && r.value.error.Some? && JsonErrorPrefix <= r.value.error.value
  {
  }

  /** A missing or falsy TAG1 yields an invalid response that carries no tag. */
  lemma MissingTag1Invalid(p: OutputParser, fields: map<string, Json>, availableTags: Option<seq<string>>,
                           coerceFloat: string -> Option<real>)
    requires !JTruthy(Lookup(fields, "TAG1"))
    ensures var r := ParseTagResponse(p, Object(fields), availableTags, coerceFloat);
      r.Ok? && !r.value.isValid && r.value.error == Some(NoTag1Message)
      && r.value.tag1.None? && r.value.tag2.None? && r.value.tag3.None?
  {
  }

  /**
    When TAG1 is present, the first present tag (in order TAG1, TAG2, TAG3) that is a string whose
    upper-case form is not allowed makes the response invalid, with an error naming that index.
  */
  lemma FirstRejectedTag(p: OutputParser, fields: map<string, Json>, availableTags: Option<seq<string>>,
                         coerceFloat: string -> Option<real>, k: nat)
    requires 1 <= k <= 3
    requires JTruthy(Tags(fields)[0]) && FirstRejectedAt(Tags(fields), TagsToUse(p, availableTags), k)
    ensures ParseTagResponse(p, Object(fields), availableTags, coerceFloat)
            == Ok(Invalid(RejectMessage(k, Tags(fields)[k - 1].s)))
  {
    var ts, allowed := Tags(fields), TagsToUse(p, availableTags);
    var c := CheckTags(ts, allowed, 1);
    assert !c.AllAllowed?;
  }

  /**
    Every invalid response from an object is one of the two rejections: TAG1 falsy, or a first
    present tag outside the allowed list, named by its index.
  */
  lemma InvalidMeansRejected(p: OutputParser, fields: map<string, Json>, availableTags: Option<seq<string>>,
                             coerceFloat: string -> Option<real>)
    ensures var r, ts, allowed := ParseTagResponse(p, Object(fields), availableTags, coerceFloat),
                                  Tags(fields), TagsToUse(p, availableTags);
      r.Ok? && !r.value.isValid ==>
        (!JTruthy(ts[0]) && r.value.error == Some(NoTag1Message))
        || (JTruthy(ts[0]) && exists k :: FirstRejectedAt(ts, allowed, k)
                                          && r.value == Invalid(RejectMessage(k, ts[k - 1].s)))
  {
    var ts, allowed := Tags(fields), TagsToUse(p, availableTags);
    if JTruthy(ts[0]) {
      var c := CheckTags(ts, allowed, 1);
      if c.Rejected? {
        assert FirstRejectedAt(ts, allowed, c.index) && ts[c.index - 1].s == c.tag;
      }
    }
  }

  /**
    A valid response has no error, its tags are the upper-case forms of the present input tags
    (None for a falsy one), TAG1 among them, and every tag it carries is in the allowed list.
  */
  lemma ValidResponse(p: OutputParser, fields: map<string, Json>, availableTags: Option<seq<string>>,
                      coerceFloat: string -> Option<real>)
    ensures var r, ts, allowed := ParseTagResponse(p, Object(fields), availableTags, coerceFloat),
                                  Tags(fields), TagsToUse(p, availableTags);
      r.Ok? && r.value.isValid ==>
        r.value.error.None? && r.value.tag1.Some?
        && r.value.tag1 == OutTag(ts[0]) && r.value.tag2 == OutTag(ts[1]) && r.value.tag3 == OutTag(ts[2])
        && (r.value.tag1.Some? ==> r.value.tag1.value in allowed)
        && (r.value.tag2.Some? ==> r.value.tag2.value in allowed)
        && (r.value.tag3.Some? ==> r.value.tag3.value in allowed)
        && (!JTruthy(Lookup(fields, "CONFIDENCE")) ==> r.value.confidence == 0.0)
  {
    var ts, allowed := Tags(fields), TagsToUse(p, availableTags);
    if JTruthy(ts[0]) && CheckTags(ts, allowed, 1).AllAllowed? {
      assert TagOk(ts[0], allowed) && TagOk(ts[1], allowed) && TagOk(ts[2], allowed);
    }
  }

  /** A response is valid exactly when TAG1 is present, every tag passes, and confidence and reasoning are accepted. */
  lemma ValidIff(p: OutputParser, fields: map<string, Json>, availableTags: Option<seq<string>>,
                 coerceFloat: string -> Option<real>)
    ensures var r, ts, allowed := ParseTagResponse(p, Object(fields), availableTags, coerceFloat),
                                  Tags(fields), TagsToUse(p, availableTags);
      (r.Ok? && r.value.isValid) <==>
        JTruthy(ts[0]) && (forall i :: 0 <= i < 3 ==> TagOk(ts[i], allowed))
        && Confidence(Lookup(fields, "CONFIDENCE"), coerceFloat).Some?
        && Reasoning(Lookup(fields, "REASONING")).Some?
  {
  }

  /** With an empty allowed list no response carrying TAG1 is valid. */
  lemma EmptyAllowedListRejects(p: OutputParser, fields: map<string, Json>, availableTags: Option<seq<string>>,
                                coerceFloat: string -> Option<real>)
    requires TagsToUse(p, availableTags) == [] && JTruthy(Lookup(fields, "TAG1"))
    ensures var r := ParseTagResponse(p, Object(fields), availableTags, coerceFloat);
      r.Err? || !r.value.isValid
  {
    var ts := Tags(fields);
    assert !TagOk(ts[0], []);
  }

  /** The default parser has no allowed tags, so only a call-site list lets a response pass. */
  lemma DefaultParserFallback(availableTags: Option<seq<string>>)
    ensures TagsToUse(NewOutputParser(None), availableTags) == if availableTags.Some? then availableTags.value else []
  {
  }
}
