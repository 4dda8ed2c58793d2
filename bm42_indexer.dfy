/** Shaping documents into BM42 points and uploading them in batches of 100
    (scripts/bm42/bm42_indexer.py). The embedding model is an oracle from texts to sparse
    vectors, and the uploads are returned as the sequence of batches passed to `upsert`. */
module Bm42Indexer {
  import opened Wrappers
  import opened Json

  /** A loaded document: a JSON object. */
  type Document = map<string, Json>

  /** The `body` of each comment that has one, for a list of comments. */
  function Bodies(comments: seq<Json>): Result<seq<Json>, PyError> {
    if comments == [] then Ok([])
    else
      match PyIn("body", comments[0])
      case Err(e) => Err(e)
      case Ok(has) =>
        var first := if has then PyIndex(comments[0], "body") else Ok(JNull);
        match first
        case Err(e) => Err(e)
        case Ok(body) =>
          match Bodies(comments[1..])
          case Err(e) => Err(e)
          case Ok(rest) => Ok(if has then [body] + rest else rest)
  }

  /** The parts contributed by `for comment in comments: if 'body' in comment: ...`. Iterating
      a dict visits its keys, strings that can only be tested for a substring and then not
      indexed by `'body'`; iterating a string visits one-character strings, which never
      contain `'body'`. */
  function CommentParts(comments: Json): Result<seq<Json>, PyError> {
    match comments
    case JArray(items) => Bodies(items)
    case JObject(fields) => if exists k | k in fields :: IsSubstring("body", k) then Err(TypeError) else Ok([])
    case JString(_) => Ok([])
    case _ => Err(TypeError)
  }

  /** The value at `key` in `j` when `key in j` holds, as a list of at most one part. */
  function PartAt(j: Json, key: string): Result<seq<Json>, PyError> {
    match PyIn(key, j)
    case Err(e) => Err(e)
    case Ok(has) =>
      if !has then Ok([])
      else
        match PyIndex(j, key)
        case Err(e) => Err(e)
        case Ok(v) => Ok([v])
  }

  /** The parts a Jira `fields` value contributes: summary, description, then the comment
      bodies when `comment` holds `comments` (the second test runs only after the first). */
  function FieldParts(fields: Json): Result<seq<Json>, PyError> {
    match PartAt(fields, "summary")
    case Err(e) => Err(e)
    case Ok(summary) =>
      match PartAt(fields, "description")
      case Err(e) => Err(e)
      case Ok(description) =>
        match PyIn("comment", fields)
        case Err(e) => Err(e)
        case Ok(hasComment) =>
          if !hasComment then Ok(summary + description)
          else
            var comment := PyIndex(fields, "comment");
            if comment.Err? then Err(comment.error)
            else
              match PyIn("comments", comment.value)
              case Err(e) => Err(e)
              case Ok(hasComments) =>
                if !hasComments then Ok(summary + description)
                else
                  match PyIndex(comment.value, "comments")
                  case Err(e) => Err(e)
                  case Ok(comments) =>
                    match CommentParts(comments)
                    case Err(e) => Err(e)
                    case Ok(bodies) => Ok(summary + description + bodies)
  }

  /** The parts `extract_text` collects, in order: the `fields` parts, then the `key`. */
  function Parts(doc: Document): Result<seq<Json>, PyError> {
    var fromFields := if "fields" in doc then FieldParts(doc["fields"]) else Ok([]);
    match fromFields
    case Err(e) => Err(e)
    case Ok(parts) => Ok(parts + if "key" in doc then [doc["key"]] else [])
  }

  /** `filter(None, parts)`: the truthy parts, in order. */
  function Truthful(parts: seq<Json>): (r: seq<Json>)
    ensures forall x :: x in r <==> x in parts && Truthy(x)
  {
    if parts == [] then []
    else (if Truthy(parts[0]) then [parts[0]] else []) + Truthful(parts[1..])
  }

  /** The strings of `parts`, or `TypeError` when one of them is not a string. */
  function Strings(parts: seq<Json>): (r: Result<seq<string>, PyError>)
    ensures r.Ok? <==> forall x :: x in parts ==> x.JString?
    ensures r.Ok? ==> |r.value| == |parts| && forall i :: 0 <= i < |parts| ==> parts[i] == JString(r.value[i])
  {
    if parts == [] then Ok([])
    else if !parts[0].JString? then Err(TypeError)
    else
      match Strings(parts[1..])
      case Err(e) => Err(e)
      case Ok(rest) => Ok([parts[0].s] + rest)
  }

  /** `' '.join(words)`. */
  function Join(words: seq<string>): string {
    if words == [] then "" else if |words| == 1 then words[0] else words[0] + " " + Join(words[1..])
  }

  /** `extract_text`: the truthy parts joined with single spaces. For a document of the Jira
      shape, the parts are the values present among the summary, the description, the comment
      bodies and the key; the text exists exactly when each of them is a string or falsy, and
      it is then the non-empty strings among them joined with single spaces. */
  function ExtractText(doc: Document): (r: Result<string, PyError>)
    ensures JiraShaped(doc) ==> (r.Ok? <==> Joinable(Present(doc)))
    ensures JiraShaped(doc) && r.Ok? ==> r.value == Join(Texts(Present(doc)))
  {
    PartsOfShaped(doc);
    match Parts(doc)
    case Err(e) => Err(e)
    case Ok(parts) =>
      StringsOfParts(parts);
      match Strings(Truthful(parts))
      case Err(e) => Err(e)
      case Ok(words) => Ok(Join(words))
  }

  // ---------------------------------------------------------------------------------------
  // What extract_text collects, stated without the Python operations

  /** The value at `key`, as a list of at most one part. */
  function Field(m: map<string, Json>, key: string): (r: seq<Json>)
    ensures |r| <= 1
  {
    if key in m then [m[key]] else []
  }

  /** A document of the Jira shape: `fields`, where present, is an object; its `comment`, where
      present, is an object; and that object's `comments`, where present, is a list of objects.
      The values inside (summary, description, bodies, key) may be anything. */
  predicate JiraShaped(doc: Document) {
    "fields" in doc ==>
      (&& doc["fields"].JObject?
       && ("comment" in doc["fields"].fields ==> ShapedComment(doc["fields"].fields["comment"])))
  }

  predicate ShapedComment(comment: Json) {
    && comment.JObject?
    && ("comments" in comment.fields ==>
         (&& comment.fields["comments"].JArray?
          && forall c | c in comment.fields["comments"].items :: c.JObject?))
  }

  /** The comments of a `fields` object, or none when `comment` or `comments` is absent. */
  function CommentsOf(fields: map<string, Json>): seq<Json> {
    if "comment" in fields && fields["comment"].JObject? && "comments" in fields["comment"].fields
      && fields["comment"].fields["comments"].JArray?
    then fields["comment"].fields["comments"].items
    else []
  }

  /** The `body` of each comment object that has one, in order. */
  function BodiesOf(comments: seq<Json>): seq<Json> {
    if comments == [] then []
    else (if comments[0].JObject? then Field(comments[0].fields, "body") else []) + BodiesOf(comments[1..])
  }

  /** The values present among the summary, the description, the comment bodies and the key,
      in that order. */
  function Present(doc: Document): seq<Json> {
    var fromFields :=
      if "fields" in doc && doc["fields"].JObject? then
        var fields := doc["fields"].fields;
        Field(fields, "summary") + Field(fields, "description") + BodiesOf(CommentsOf(fields))
      else [];
    fromFields + Field(doc, "key")
  }

  /** Every truthy part is a string, so `' '.join` accepts the filtered parts. */
  predicate Joinable(parts: seq<Json>) {
    forall x | x in parts :: Truthy(x) ==> x.JString?
  }

  /** The non-empty strings among `parts`, in order. */
  function Texts(parts: seq<Json>): (r: seq<string>)
    ensures forall w | w in r :: w != ""
    ensures Joinable(parts) ==> (r == [] <==> forall x | x in parts :: !Truthy(x))
  {
    if parts == [] then []
    else
      var rest := Texts(parts[1..]);
      assert forall x | x in parts[1..] :: x in parts;
      assert forall x | x in parts :: x == parts[0] || x in parts[1..];
      var first := if parts[0].JString? && parts[0].s != "" then [parts[0].s] else [];
      assert Joinable(parts) ==> (first == [] <==> !Truthy(parts[0]));
      assert |first + rest| == |first| + |rest|;
      first + rest
  }

  /** The comment loop over a list of objects collects exactly their bodies. */
  lemma {:induction false} BodiesOfObjects(comments: seq<Json>)
    requires forall c | c in comments :: c.JObject?
    ensures Bodies(comments) == Ok(BodiesOf(comments))
  {
    if comments != [] {
      assert forall c | c in comments[1..] :: c in comments;
      BodiesOfObjects(comments[1..]);
      var rest := BodiesOf(comments[1..]);
      assert [] + rest == rest;
    }
  }

  /** For a document of the Jira shape, the parts the Python code collects are `Present`. */
  lemma PartsOfShaped(doc: Document)
    ensures JiraShaped(doc) ==> Parts(doc) == Ok(Present(doc))
  {
    if JiraShaped(doc) && "fields" in doc {
      var fields := doc["fields"].fields;
      var head := Field(fields, "summary") + Field(fields, "description");
      assert PartAt(doc["fields"], "summary") == Ok(Field(fields, "summary"));
      assert PartAt(doc["fields"], "description") == Ok(Field(fields, "description"));
      if "comment" in fields && "comments" in fields["comment"].fields {
        BodiesOfObjects(CommentsOf(fields));
        assert FieldParts(doc["fields"]) == Ok(head + BodiesOf(CommentsOf(fields)));
      } else {
        assert CommentsOf(fields) == [];
        assert head + BodiesOf([]) == head;
        assert FieldParts(doc["fields"]) == Ok(head + BodiesOf(CommentsOf(fields)));
      }
    } else if JiraShaped(doc) {
      var none: seq<Json> := [];
      assert none + Field(doc, "key") == Field(doc, "key");
    }
  }

  /** Filtering out the falsy parts and reading the rest as strings fails exactly when a truthy
      part is not a string, and otherwise gives the non-empty strings. */
  lemma {:induction false} StringsOfParts(parts: seq<Json>)
    ensures Strings(Truthful(parts)).Ok? <==> Joinable(parts)
    ensures Strings(Truthful(parts)).Ok? ==> Strings(Truthful(parts)).value == Texts(parts)
  {
    if parts != [] {
      var rest := parts[1..];
      assert forall x | x in rest :: x in parts;
      assert forall x | x in parts :: x == parts[0] || x in rest;
      StringsOfParts(rest);
      assert Joinable(parts) <==> (Truthy(parts[0]) ==> parts[0].JString?) && Joinable(rest);
      if Truthy(parts[0]) {
        var t := [parts[0]] + Truthful(rest);
        assert Truthful(parts) == t;
        assert t[1..] == Truthful(rest);
        if parts[0].JString? {
          assert Texts(parts) == [parts[0].s] + Texts(rest);
        }
      } else {
        assert Truthful(parts) == Truthful(rest);
        assert Texts(parts) == [] + Texts(rest);
      }
    }
  }

  // ---------------------------------------------------------------------------------------
  // Properties of extract_text

  function TotalLength(words: seq<string>): nat {
    if words == [] then 0 else |words[0]| + TotalLength(words[1..])
  }

  /** Joining puts exactly one space between consecutive words, so the text is empty only when
      there are no words or a single empty one. */
  lemma {:induction false} JoinLength(words: seq<string>)
    ensures |Join(words)| == TotalLength(words) + (if words == [] then 0 else |words| - 1)
  {
    if |words| > 1 {
      JoinLength(words[1..]);
    }
  }

  /** A document without `fields` contributes only its `key`: the key itself when it is a
      non-empty string, "" when the key is absent or falsy, and a `TypeError` when it is a
      truthy value that is not a string. */
  lemma NoFieldsOnlyKey(doc: Document)
    requires "fields" !in doc
    ensures "key" !in doc ==> ExtractText(doc) == Ok("")
    ensures "key" in doc && !Truthy(doc["key"]) ==> ExtractText(doc) == Ok("")
    ensures "key" in doc && Truthy(doc["key"]) && doc["key"].JString? ==> ExtractText(doc) == Ok(doc["key"].s)
    ensures "key" in doc && Truthy(doc["key"]) && !doc["key"].JString? ==> ExtractText(doc) == Err(TypeError)
  {
    if "key" in doc {
      assert [] + [doc["key"]] == [doc["key"]];
      assert Parts(doc) == Ok([doc["key"]]);
      assert Truthful([doc["key"]]) == (if Truthy(doc["key"]) then [doc["key"]] else []);
    } else {
      var none: seq<Json> := [];
      assert none + none == none;
      assert Parts(doc) == Ok([]);
    }
  }

  /** Strings as JSON values. */
  function AsJson(words: seq<string>): (r: seq<Json>)
    ensures |r| == |words|
  {
    if words == [] then [] else [JString(words[0])] + AsJson(words[1..])
  }

  lemma {:induction false} AsJsonAppend(xs: seq<string>, ys: seq<string>)
    ensures AsJson(xs + ys) == AsJson(xs) + AsJson(ys)
  {
    if xs == [] {
      assert xs + ys == ys;
    } else {
      assert (xs + ys)[1..] == xs[1..] + ys;
      AsJsonAppend(xs[1..], ys);
    }
  }

  /** The non-empty strings of `words`, in order. */
  function NonEmpty(words: seq<string>): (r: seq<string>)
    ensures forall w :: w in r <==> w in words && w != ""
  {
    if words == [] then [] else (if words[0] != "" then [words[0]] else []) + NonEmpty(words[1..])
  }

  /** Comments that are all objects with a string `body` contribute their bodies in order. */
  lemma {:induction false} BodiesOfComments(comments: seq<Json>, bodies: seq<string>)
    requires |comments| == |bodies|
    requires forall k :: 0 <= k < |comments| ==>
      comments[k].JObject? && "body" in comments[k].fields && comments[k].fields["body"] == JString(bodies[k])
    ensures Bodies(comments) == Ok(AsJson(bodies))
  {
    if comments != [] {
      BodiesOfComments(comments[1..], bodies[1..]);
      assert PyIn("body", comments[0]) == Ok(true);
    }
  }

  /** Filtering and joining string parts keeps exactly the non-empty ones. */
  lemma {:induction false} StringsOfTruthful(words: seq<string>)
    ensures Strings(Truthful(AsJson(words))) == Ok(NonEmpty(words))
  {
    if words != [] {
      var strings := AsJson(words);
      assert strings[1..] == AsJson(words[1..]);
      StringsOfTruthful(words[1..]);
      if words[0] != "" {
        assert Truthful(strings) == [strings[0]] + Truthful(strings[1..]);
      } else {
        assert Truthful(strings) == Truthful(strings[1..]);
        assert NonEmpty(words) == NonEmpty(words[1..]);
      }
    }
  }

  /** A Jira issue whose summary, description and key are strings and whose comments are a list
      of objects with string bodies: the text is the non-empty ones among the summary, the
      description, the bodies in order and the key, joined with single spaces. */
  lemma JiraText(doc: Document, fields: map<string, Json>, comments: seq<Json>,
      summary: string, description: string, bodies: seq<string>, key: string)
    requires "fields" in doc && doc["fields"] == JObject(fields) && "key" in doc && doc["key"] == JString(key)
    requires "summary" in fields && fields["summary"] == JString(summary)
    requires "description" in fields && fields["description"] == JString(description)
    requires "comment" in fields && fields["comment"].JObject?
    requires "comments" in fields["comment"].fields && fields["comment"].fields["comments"] == JArray(comments)
    requires |comments| == |bodies|
    requires forall k :: 0 <= k < |comments| ==>
      comments[k].JObject? && "body" in comments[k].fields && comments[k].fields["body"] == JString(bodies[k])
    ensures ExtractText(doc) == Ok(Join(NonEmpty([summary, description] + bodies + [key])))
  {
    BodiesOfComments(comments, bodies);
    assert PartAt(JObject(fields), "summary") == Ok([JString(summary)]);
    assert PartAt(JObject(fields), "description") == Ok([JString(description)]);
    assert FieldParts(JObject(fields)) == Ok([JString(summary)] + [JString(description)] + AsJson(bodies));
    var all := [summary, description] + bodies + [key];
    AsJsonAppend([summary, description], bodies);
    AsJsonAppend([summary, description] + bodies, [key]);
    assert AsJson([summary, description]) == [JString(summary), JString(description)];
    assert AsJson([key]) == [JString(key)];
    assert [JString(summary)] + [JString(description)] == [JString(summary), JString(description)];
    assert Parts(doc) == Ok(FieldParts(JObject(fields)).value + [JString(key)]);
    assert Parts(doc) == Ok(AsJson(all));
    StringsOfTruthful(all);
  }

  /** For a document of the Jira shape whose text exists, the text is empty exactly when every
      present part is falsy: the non-empty words and the spaces between them are all kept. */
  lemma TextEmpty(doc: Document)
    requires JiraShaped(doc) && ExtractText(doc).Ok?
    ensures ExtractText(doc).value == "" <==> forall x | x in Present(doc) :: !Truthy(x)
  {
    var words := Texts(Present(doc));
    JoinLength(words);
    if words != [] {
      assert words[0] in words;
      assert TotalLength(words) >= |words[0]| > 0;
    }
  }

  /** A null description and no comments: the summary and the key make up the text. */
  lemma NullDescription()
    ensures ExtractText(map["fields" := JObject(map["summary" := JString("a"), "description" := JNull]),
                            "key" := JString("K")]) == Ok("a K")
  {
    var doc := map["fields" := JObject(map["summary" := JString("a"), "description" := JNull]),
                   "key" := JString("K")];
    var fields := doc["fields"].fields;
    assert Present(doc) == [JString("a"), JNull, JString("K")] by {
      assert Field(fields, "summary") == [JString("a")];
      assert Field(fields, "description") == [JNull];
      assert CommentsOf(fields) == [];
      assert Field(doc, "key") == [JString("K")];
    }
    var parts := [JString("a"), JNull, JString("K")];
    assert parts[1..] == [JNull, JString("K")];
    assert parts[1..][1..] == [JString("K")];
    assert Texts(parts) == ["a", "K"];
    assert Join(["a", "K"]) == "a K";
  }

  // ---------------------------------------------------------------------------------------
  // Metadata

  /** The payload stored with a point. `key` and `title` are whatever JSON values the document
      holds there. */
  datatype Meta = Meta(key: Json, title: Json, content: string)

  /** The decimal digits of `n`, as Python's `f"{n}"` writes them. */
  function NatToString(n: nat): (r: string)
    ensures |r| >= 1 && forall i :: 0 <= i < |r| ==> '0' <= r[i] <= '9'
    decreases n
  {
    if n < 10 then [Digit(n)] else NatToString(n / 10) + [Digit(n % 10)]
  }

  function Digit(d: nat): (c: char)
    requires d < 10
    ensures '0' <= c <= '9'
  {
    ['0', '1', '2', '3', '4', '5', '6', '7', '8', '9'][d]
  }

  /** The number a string of decimal digits denotes. */
  function DigitsValue(s: string): nat
    requires forall i :: 0 <= i < |s| ==> '0' <= s[i] <= '9'
  {
    if s == [] then 0 else 10 * DigitsValue(s[..|s| - 1]) + ((s[|s| - 1] as int) - ('0' as int))
  }

  /** Reading back the digits gives the number, so distinct documents get distinct
      default keys. */
  lemma {:induction false} NatToStringRoundTrip(n: nat)
    ensures DigitsValue(NatToString(n)) == n
    decreases n
  {
    if n >= 10 {
      NatToStringRoundTrip(n / 10);
      var s := NatToString(n);
      assert s[..|s| - 1] == NatToString(n / 10);
    }
  }

  lemma DefaultKeysDistinct(i: nat, j: nat)
    requires i != j
    ensures "doc_" + NatToString(i) != "doc_" + NatToString(j)
  {
    NatToStringRoundTrip(i);
    NatToStringRoundTrip(j);
    assert ("doc_" + NatToString(i))[4..] == NatToString(i);
    assert ("doc_" + NatToString(j))[4..] == NatToString(j);
  }

  function Min(a: int, b: int): int {
    if a <= b then a else b
  }

  /** The metadata of document `i` with extracted text `text`: its `key` or "doc_<i>", the
      summary under `fields` (or the top-level `summary` when there is no `fields`) or "", and
      the first 1000 characters of the text. `.get` on a `fields` value that is not a dict
      raises. */
  function MetaFor(doc: Document, i: nat, text: string): Result<Meta, PyError> {
    var key := Get(doc, "key", JString("doc_" + NatToString(i)));
    var title :=
      if "fields" in doc then
        (if doc["fields"].JObject? then Ok(Get(doc["fields"].fields, "summary", JString(""))) else Err(AttributeError))
      else Ok(Get(doc, "summary", JString("")));
    match title
    case Err(e) => Err(e)
    case Ok(t) => Ok(Meta(key, t, text[..Min(1000, |text|)]))
  }

  lemma MetaFields(doc: Document, i: nat, text: string)
    requires !("fields" in doc && !doc["fields"].JObject?)
    ensures MetaFor(doc, i, text).Ok?
    ensures var m := MetaFor(doc, i, text).value;
      && |m.content| == Min(1000, |text|) && text == m.content + text[|m.content|..]
      && ("key" !in doc ==> m.key == JString("doc_" + NatToString(i)))
      && ("key" in doc ==> m.key == doc["key"])
      && ("fields" in doc && "summary" in doc["fields"].fields ==> m.title == doc["fields"].fields["summary"])
      && ("fields" !in doc && "summary" in doc ==> m.title == doc["summary"])
      && ((if "fields" in doc then "summary" !in doc["fields"].fields else "summary" !in doc) ==> m.title == JString(""))
  {
  }

  /** Document `i` shaped: its text and its metadata. */
  datatype Prepared = Prepared(text: string, meta: Meta)

  function Prepare(doc: Document, i: nat): Result<Prepared, PyError> {
    match ExtractText(doc)
    case Err(e) => Err(e)
    case Ok(text) =>
      match MetaFor(doc, i, text)
      case Err(e) => Err(e)
      case Ok(meta) => Ok(Prepared(text, meta))
  }

  /** All documents shaped in order, or the error of the first one that cannot be. */
  function PrepareAll(docs: seq<Document>): (r: Result<seq<Prepared>, PyError>)
    ensures r.Ok? ==> |r.value| == |docs| && forall i :: 0 <= i < |docs| ==> Prepare(docs[i], i) == Ok(r.value[i])
  {
    if docs == [] then Ok([])
    else
      match PrepareAll(docs[..|docs| - 1])
      case Err(e) => Err(e)
      case Ok(ps) =>
        match Prepare(docs[|docs| - 1], |docs| - 1)
        case Err(e) => Err(e)
        case Ok(p) =>
          Extend(Prepare, docs, ps, p);
          Ok(ps + [p])
  }

  /** Results for the first `|ys|` inputs, and the result for the next one, are the results
      for one input more. */
  lemma ExtendAt<T, U, E>(f: (T, nat) -> Result<U, E>, xs: seq<T>, ys: seq<U>, y: U)
    requires |ys| < |xs| && f(xs[|ys|], |ys|) == Ok(y)
    requires forall i :: 0 <= i < |ys| ==> f(xs[i], i) == Ok(ys[i])
    ensures forall i :: 0 <= i <= |ys| ==> f(xs[i], i) == Ok((ys + [y])[i])
  {
  }

  /** Results for all but the last input, and the result for the last one, are the results for
      every input. */
  lemma Extend<T, U, E>(f: (T, nat) -> Result<U, E>, xs: seq<T>, ys: seq<U>, y: U)
    requires xs != [] && |ys| == |xs| - 1 && f(xs[|xs| - 1], |xs| - 1) == Ok(y)
    requires forall i :: 0 <= i < |ys| ==> f(xs[..|xs| - 1][i], i) == Ok(ys[i])
    ensures forall i :: 0 <= i < |xs| ==> f(xs[i], i) == Ok((ys + [y])[i])
  {
    assert forall i :: 0 <= i < |ys| ==> xs[..|xs| - 1][i] == xs[i];
  }

  /** `PrepareAll` succeeds exactly when every document can be shaped, and otherwise reports
      the first failure. */
  lemma {:induction false} PrepareAllFirstError(docs: seq<Document>, n: nat)
    requires n <= |docs|
    requires forall i :: 0 <= i < n ==> Prepare(docs[i], i).Ok?
    ensures n == |docs| ==> PrepareAll(docs).Ok?
    ensures n < |docs| && Prepare(docs[n], n).Err? ==> PrepareAll(docs) == Err(Prepare(docs[n], n).error)
    decreases |docs|
  {
    if docs != [] {
      var init := docs[..|docs| - 1];
      assert forall i :: 0 <= i < |init| ==> init[i] == docs[i];
      if n < |docs| {
        PrepareAllFirstError(init, if n < |init| then n else |init|);
      } else {
        PrepareAllFirstError(init, |init|);
      }
    }
  }

  // ---------------------------------------------------------------------------------------
  // Points and batches

  /** A BM42 sparse vector as the model returns it. */
  datatype SparseVector = SparseVector(indices: seq<int>, values: seq<real>)

  datatype Point = Point(id: nat, payload: Meta, vector: SparseVector)

  /** All batches, one after the other. */
  function Concat(batches: seq<seq<Point>>): seq<Point> {
    if batches == [] then [] else Concat(batches[..|batches| - 1]) + batches[|batches| - 1]
  }

  lemma {:induction false} ConcatFull(batches: seq<seq<Point>>)
    requires forall k :: 0 <= k < |batches| ==> |batches[k]| == 100
    ensures |Concat(batches)| == 100 * |batches|
  {
    if batches != [] {
      ConcatFull(batches[..|batches| - 1]);
    }
  }

  /** How many points reach `upsert` when `m` documents have `e` embeddings: the pairs are
      `min(e, m)`, and the final partial batch is flushed only when the last pair is also the
      last embedding, which fails when there are more embeddings than documents. */
  function Uploaded(e: nat, m: nat): nat {
    if e <= m then e else m / 100 * 100
  }

  /** `index_documents`: shape every document (any exception ends the run before anything is
      uploaded), embed the texts with `embed`, then build point `i` from the `i`-th embedding
      and metadata and upload the buffer whenever it holds 100 points or the last embedding
      has been used. */
  method IndexDocuments(docs: seq<Document>, embed: seq<string> -> seq<SparseVector>)
    returns (r: Result<seq<seq<Point>>, PyError>)
    ensures PrepareAll(docs).Err? ==> r == Err(PrepareAll(docs).error)
    ensures PrepareAll(docs).Ok? ==> (r.Ok? &&
      var ps := PrepareAll(docs).value;
      var embeddings := embed(seq(|ps|, i requires 0 <= i < |ps| => ps[i].text));
      Batched(r.value, seq(|ps|, i requires 0 <= i < |ps| => ps[i].meta), embeddings))
  {
    var shaped := ShapeDocuments(docs);
    if shaped.Err? {
      return Err(shaped.error);
    }
    var texts, metadata := shaped.value.0, shaped.value.1;
    var embeddings := embed(texts);
    var batches := UploadPoints(metadata, embeddings);
    return Ok(batches);
  }

  /** The first loop of `index_documents`: the text and the metadata of every document. */
  method ShapeDocuments(docs: seq<Document>) returns (r: Result<(seq<string>, seq<Meta>), PyError>)
    ensures PrepareAll(docs).Err? ==> r == Err(PrepareAll(docs).error)
    ensures PrepareAll(docs).Ok? ==> (r.Ok? &&
      var ps := PrepareAll(docs).value;
      && r.value.0 == seq(|ps|, i requires 0 <= i < |ps| => ps[i].text)
      && r.value.1 == seq(|ps|, i requires 0 <= i < |ps| => ps[i].meta))
  {
    var texts: seq<string> := [];
    var metadata: seq<Meta> := [];
    ghost var prepared: seq<Prepared> := [];
    for i := 0 to |docs|
      invariant |texts| == i && |metadata| == i && |prepared| == i
      invariant forall j :: 0 <= j < i ==> Prepare(docs[j], j) == Ok(prepared[j])
      invariant forall j :: 0 <= j < i ==> texts[j] == prepared[j].text && metadata[j] == prepared[j].meta
    {
      var text := ExtractText(docs[i]);
      if text.Err? {
        PrepareAllFirstError(docs, i);
        return Err(text.error);
      }
      texts := texts + [text.value];
      var meta := MetaFor(docs[i], i, text.value);
      if meta.Err? {
        PrepareAllFirstError(docs, i);
        return Err(meta.error);
      }
      metadata := metadata + [meta.value];
      assert Prepare(docs[i], i) == Ok(Prepared(text.value, meta.value));
      ExtendAt(Prepare, docs, prepared, Prepared(text.value, meta.value));
      prepared := prepared + [Prepared(text.value, meta.value)];
    }
    PrepareAllFirstError(docs, |docs|);
    assert PrepareAll(docs).value == prepared;
    return Ok((texts, metadata));
  }

  /** What the uploads of `index_documents` achieve for `metadata` and `embeddings`: no batch
      is empty or holds more than 100 points, all but the last hold exactly 100, and one after
      the other they are the points `0, 1, ...` in order, as many as `Uploaded` says. */
  ghost predicate Batched(batches: seq<seq<Point>>, metadata: seq<Meta>, embeddings: seq<SparseVector>) {
    && (forall k :: 0 <= k < |batches| ==> 1 <= |batches[k]| <= 100)
    && (forall k :: 0 <= k < |batches| - 1 ==> |batches[k]| == 100)
    && |Concat(batches)| == Uploaded(|embeddings|, |metadata|)
    && |Concat(batches)| <= |metadata| && |Concat(batches)| <= |embeddings|
    && (forall i :: 0 <= i < |Concat(batches)| ==> Concat(batches)[i] == Point(i, metadata[i], embeddings[i]))
  }

  /** Flushing a buffer of 1 to 100 points appends a batch of that size and its points. */
  lemma Flush(batches: seq<seq<Point>>, points: seq<Point>)
    requires 1 <= |points| <= 100
    requires forall k :: 0 <= k < |batches| ==> 1 <= |batches[k]| <= 100
    ensures Concat(batches + [points]) == Concat(batches) + points
    ensures forall k :: 0 <= k < |batches + [points]| ==> 1 <= |(batches + [points])[k]| <= 100
  {
    assert (batches + [points])[..|batches|] == batches;
  }

  /** What the upload loop leaves behind is `Batched`: the flushed points are a prefix of all
      the points, and nothing is left in the buffer once the last embedding is reached. */
  lemma BatchedAtEnd(batches: seq<seq<Point>>, points: seq<Point>, all: seq<Point>,
      metadata: seq<Meta>, embeddings: seq<SparseVector>)
    requires |all| == Min(|embeddings|, |metadata|)
    requires forall k :: 0 <= k < |all| ==> all[k] == Point(k, metadata[k], embeddings[k])
    requires Concat(batches) + points == all && |points| < 100
    requires forall k :: 0 <= k < |batches| ==> 1 <= |batches[k]| <= 100
    requires forall k :: 0 <= k < |batches| - 1 ==> |batches[k]| == 100
    requires |all| < |embeddings| ==> forall k :: 0 <= k < |batches| ==> |batches[k]| == 100
    requires |all| == |embeddings| && |all| > 0 ==> points == []
    ensures Batched(batches, metadata, embeddings)
  {
    var flushed := Concat(batches);
    assert forall k :: 0 <= k < |flushed| ==> flushed[k] == (flushed + points)[k] == all[k];
    if |all| < |embeddings| {
      ConcatFull(batches);
    }
  }

  /** The second loop of `index_documents`: one point per (embedding, metadata) pair, uploaded
      through a buffer that is flushed when it reaches 100 points or at the last embedding. */
  method UploadPoints(metadata: seq<Meta>, embeddings: seq<SparseVector>) returns (batches: seq<seq<Point>>)
    ensures Batched(batches, metadata, embeddings)
  {
    var n := Min(|embeddings|, |metadata|);
    ghost var all := seq(n, k requires 0 <= k < n => Point(k, metadata[k], embeddings[k]));
    ghost var flushed: seq<Point> := [];
    batches := [];
    var points: seq<Point> := [];
    for i := 0 to n
      invariant flushed == Concat(batches) && flushed + points == all[..i] && |points| < 100
      invariant forall k :: 0 <= k < |batches| ==> 1 <= |batches[k]| <= 100
      invariant forall k :: 0 <= k < |batches| - 1 ==> |batches[k]| == 100
      invariant i < |embeddings| ==> forall k :: 0 <= k < |batches| ==> |batches[k]| == 100
      invariant i == |embeddings| && i > 0 ==> points == []
    {
      var point := Point(i, metadata[i], embeddings[i]);
      points := points + [point];
      assert flushed + points == all[..i + 1];
      if |points| >= 100 || i == |embeddings| - 1 {
        Flush(batches, points);
        batches := batches + [points];
        flushed := flushed + points;
        points := [];
      }
    }
    BatchedAtEnd(batches, points, all, metadata, embeddings);
  }
}
