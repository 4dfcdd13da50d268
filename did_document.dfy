/**
 * A DID document (W3C Decentralized Identifiers, DID Core): a JSON-LD object
 * that is validated once, when it is constructed, and that exposes its subject
 * identifier and its verification methods through accessors that re-read the
 * backing map on every call.
 *
 * The collaborators the document relies on but does not define (the JSON-LD
 * context lookup, the URI conversion, the verification-method constructor and
 * the JSON parser and renderer) are passed in as a `Collaborators` value, and
 * every contract here is stated relative to them.
 */
module DidDocuments {
  import opened Json

  /** The context a DID document usually carries (informational, never enforced). */
  const DefaultContext: string := "https://www.w3.org/ns/did/v1"
  /** Key of the DID subject. */
  const IdKey: string := "id"
  /** Key of the verification methods: one object or a list of objects. */
  const VerificationMethodKey: string := "verificationMethod"
  /** Key of the authentication references (read by other components only). */
  const AuthenticationKey: string := "authentication"

  /** The messages of the three null checks the constructor performs. */
  const ContextIsNull: string := "context is null"
  const IdIsNull: string := "id is null"
  const VerificationMethodIsNull: string := "verificationMethod is null"

  /** A URI, as the URI conversion produces it. */
  datatype Uri = Uri(text: string)

  /**
   * A verification method, as its constructor builds it. Which map ends up in
   * `fields` is the constructor's business, not this model's.
   */
  datatype VerificationMethod = VerificationMethod(fields: JsonMap)

  /** The exceptions that can end a call. */
  datatype Exception =
    | NullPointer(message: string)                                   // Objects.requireNonNull
    | ClassCast(element: Json)                                       // a list element neither an object nor null
    | IllegalArgument(rendered: string, cause: Exception)             // invalid document
    | Raised(description: string)                                    // anything a collaborator throws

  /** What a Java call returning a reference ends with: a value, null, or an exception. */
  datatype Call<T> = Value(value: T) | Null | Throws(exception: Exception)

  /** What a Java call that cannot return null ends with. */
  datatype Result<T> = Ok(value: T) | Fail(exception: Exception)

  datatype Option<T> = None | Some(value: T)

  /** The collaborators of the document, each a possibly-failing function. */
  datatype Collaborators = Collaborators(
    getContext: JsonMap -> Call<seq<Uri>>,                               // JsonLdObject.getContext
    asUri: Json -> Call<Uri>,                                            // SerializeUtil.asURI
    newVerificationMethod: Option<JsonMap> -> Result<VerificationMethod>, // new VerificationMethod(map), None = null
    fromJson: string -> Result<JsonMap>,                                 // SerializeUtil.fromJson
    toJson: JsonMap -> string)                                           // SerializeUtil.toJson

  /** A DID document: the JSON map it wraps, kept unchanged. */
  datatype DidDocument = DidDocument(json: JsonMap)

  // ---------------------------------------------------------------------------
  // getId
  // ---------------------------------------------------------------------------

  /** The subject URI: the value under "id", converted to a URI on every call. */
  function GetId(env: Collaborators, doc: DidDocument): (r: Call<Uri>)
    ensures IdKey in doc.json ==> r == env.asUri(doc.json[IdKey])
    ensures IdKey !in doc.json ==> r == env.asUri(JNull)
  {
    env.asUri(Lookup(doc.json, IdKey))
  }

  // ---------------------------------------------------------------------------
  // getVerificationMethods: specification
  // ---------------------------------------------------------------------------

  /**
   * One element of a verification-method list. The list is read as a list of
   * maps, so an element that is neither an object nor null fails the cast, and
   * a null element reaches the constructor as null.
   */
  function DecodeElement(env: Collaborators, element: Json): Result<VerificationMethod>
  {
    match element
    case JMap(m) => env.newVerificationMethod(Some(m))
    case JNull => env.newVerificationMethod(None)
    case _ => Fail(ClassCast(element))
  }

  /** The elements of a list, decoded in order; the first failure ends the whole list. */
  function DecodeList(env: Collaborators, items: seq<Json>): Result<seq<VerificationMethod>>
  {
    if items == [] then Ok([])
    else
      match DecodeElement(env, items[0])
      case Fail(e) => Fail(e)
      case Ok(vm) =>
        match DecodeList(env, items[1..])
        case Fail(e) => Fail(e)
        case Ok(rest) => Ok([vm] + rest)
  }

  /**
   * The normalisation by shape: an object gives one method, a list gives one
   * per element, anything else gives none.
   */
  function Normalise(env: Collaborators, v: Json): Result<seq<VerificationMethod>>
  {
    match v
    case JMap(m) =>
      (match env.newVerificationMethod(Some(m))
       case Fail(e) => Fail(e)
       case Ok(vm) => Ok([vm]))
    case JList(items) => DecodeList(env, items)
    case _ => Ok([])
  }

  /**
   * What `getVerificationMethods` ends with. The list it returns is always a
   * freshly built one, never null.
   */
  function VerificationMethodsOf(env: Collaborators, doc: DidDocument): (r: Call<seq<VerificationMethod>>)
    ensures !r.Null?
  {
    match Normalise(env, Lookup(doc.json, VerificationMethodKey))
    case Ok(vms) => Value(vms)
    case Fail(e) => Throws(e)
  }

  /** `prefix` put in front of a decoded remainder; a failure stays a failure. */
  function Prepend(prefix: seq<VerificationMethod>, r: Result<seq<VerificationMethod>>): Result<seq<VerificationMethod>>
  {
    match r
    case Ok(rest) => Ok(prefix + rest)
    case Fail(e) => Fail(e)
  }

  /** Putting nothing in front changes nothing. */
  lemma PrependNothing(r: Result<seq<VerificationMethod>>)
    ensures Prepend([], r) == r
  {
    if r.Ok? {
      assert [] + r.value == r.value;
    }
  }

  /** Putting `[vm]` and then `prefix` in front is putting `prefix + [vm]` in front. */
  lemma PrependTwice(prefix: seq<VerificationMethod>, vm: VerificationMethod, r: Result<seq<VerificationMethod>>)
    ensures Prepend(prefix, Prepend([vm], r)) == Prepend(prefix + [vm], r)
  {
    if r.Ok? {
      assert prefix + ([vm] + r.value) == (prefix + [vm]) + r.value;
    }
  }

  // ---------------------------------------------------------------------------
  // getVerificationMethods: the accessor
  // ---------------------------------------------------------------------------

  /**
   * Builds the list of verification methods by appending to an initially
   * empty list: the one method of an object, or the method of each list
   * element in order. An exception discards the partial list.
   */
  method GetVerificationMethods(env: Collaborators, doc: DidDocument) returns (r: Call<seq<VerificationMethod>>)
    ensures r == VerificationMethodsOf(env, doc)
  {
    var result: seq<VerificationMethod> := [];
    var verificationMethod := Lookup(doc.json, VerificationMethodKey);
    if verificationMethod.JMap? {
      var made := env.newVerificationMethod(Some(verificationMethod.fields));
      if made.Fail? {
        return Throws(made.exception);
      }
      result := result + [made.value];
      assert result == [made.value];
    }
    if verificationMethod.JList? {
      var items := verificationMethod.items;
      var i := 0;
      assert result == [] && items[i..] == items;
      PrependNothing(DecodeList(env, items));
      while i < |items|
        invariant 0 <= i <= |items|
        invariant DecodeList(env, items) == Prepend(result, DecodeList(env, items[i..]))
      {
        assert items[i..][0] == items[i] && items[i..][1..] == items[i + 1..];
        var made := DecodeElement(env, items[i]);
        if made.Fail? {
          return Throws(made.exception);
        }
        PrependTwice(result, made.value, DecodeList(env, items[i + 1..]));
        result := result + [made.value];
        i := i + 1;
      }
      assert items[i..] == [];
      assert result + [] == result;
      assert Normalise(env, verificationMethod) == Ok(result);
    }
    return Value(result);
  }

  /** Two calls of the accessor on the same document give the same outcome. */
  method GetVerificationMethodsTwice(env: Collaborators, doc: DidDocument) returns (same: bool)
    ensures same
  {
    var first := GetVerificationMethods(env, doc);
    var second := GetVerificationMethods(env, doc);
    same := first == second;
  }

  // ---------------------------------------------------------------------------
  // The validating constructor and fromJson
  // ---------------------------------------------------------------------------

  /** `Objects.requireNonNull` applied to the outcome of a call: the exception it ends with, if any. */
  function RequireNonNull<T>(c: Call<T>, message: string): Option<Exception>
  {
    match c
    case Value(_) => None
    case Null => Some(NullPointer(message))
    case Throws(e) => Some(e)
  }

  /** The three checks of the constructor, in order: the exception of the first that fails. */
  function FirstFailure(env: Collaborators, json: JsonMap): Option<Exception>
  {
    var doc := DidDocument(json);
    var contextCheck := RequireNonNull(env.getContext(json), ContextIsNull);
    if contextCheck.Some? then contextCheck
    else
      var idCheck := RequireNonNull(GetId(env, doc), IdIsNull);
      if idCheck.Some? then idCheck
      else RequireNonNull(VerificationMethodsOf(env, doc), VerificationMethodIsNull)
  }

  /**
   * The validating constructor: the document wrapping `json`, or one
   * IllegalArgument exception carrying the rendered input and the
   * exception that made validation fail.
   */
  function Construct(env: Collaborators, json: JsonMap): (r: Result<DidDocument>)
    ensures r.Ok? <==>
      && env.getContext(json).Value?
      && GetId(env, DidDocument(json)).Value?
      && !VerificationMethodsOf(env, DidDocument(json)).Throws?
    ensures r.Ok? ==> r.value.json == json
    ensures r.Fail? ==>
      && r.exception.IllegalArgument?
      && r.exception.rendered == env.toJson(json)
  {
    match FirstFailure(env, json)
    case None => Ok(DidDocument(json))
    case Some(cause) => Fail(IllegalArgument(env.toJson(json), cause))
  }

  /**
   * `fromJson`: parse the text, then construct. A parse failure propagates as
   * it is, without the IllegalArgument wrapper.
   */
  function FromJson(env: Collaborators, text: string): (r: Result<DidDocument>)
    ensures r.Ok? <==> env.fromJson(text).Ok? && Construct(env, env.fromJson(text).value).Ok?
    ensures env.fromJson(text).Fail? ==> r == Fail(env.fromJson(text).exception)
    ensures env.fromJson(text).Ok? ==> r == Construct(env, env.fromJson(text).value)
  {
    match env.fromJson(text)
    case Fail(e) => Fail(e)
    case Ok(json) => Construct(env, json)
  }

  // ---------------------------------------------------------------------------
  // Properties of the verification-method normalisation
  // ---------------------------------------------------------------------------

  /** A list decodes exactly when every element does, into one method per element, in order. */
  lemma {:induction false} DecodeListSucceeds(env: Collaborators, items: seq<Json>)
    ensures DecodeList(env, items).Ok? <==>
      forall i :: 0 <= i < |items| ==> DecodeElement(env, items[i]).Ok?
    ensures DecodeList(env, items).Ok? ==>
      && |DecodeList(env, items).value| == |items|
      && forall i :: 0 <= i < |items| ==> DecodeElement(env, items[i]) == Ok(DecodeList(env, items).value[i])
  {
    if items != [] {
      var tail := items[1..];
      DecodeListSucceeds(env, tail);
      assert forall i :: 1 <= i < |items| ==> items[i] == tail[i - 1];
      if DecodeList(env, items).Ok? {
        var vms := DecodeList(env, items).value;
        assert vms == [DecodeElement(env, items[0]).value] + DecodeList(env, tail).value;
        forall i | 0 <= i < |items|
          ensures DecodeElement(env, items[i]) == Ok(vms[i])
        {
          if i > 0 {
            assert vms[i] == DecodeList(env, tail).value[i - 1];
          }
        }
      } else if DecodeElement(env, items[0]).Ok? {
        var j :| 0 <= j < |tail| && !DecodeElement(env, tail[j]).Ok?;
        assert items[j + 1] == tail[j];
      }
    }
  }

  /**
   * A list fails exactly when some element fails, and then with the
   * exception of the first failing element: no partial list is returned.
   */
  lemma {:induction false} DecodeListFailsAtFirstBadElement(env: Collaborators, items: seq<Json>)
    ensures DecodeList(env, items).Fail? <==>
      exists i :: 0 <= i < |items| && DecodeElement(env, items[i]).Fail?
    ensures DecodeList(env, items).Fail? ==>
      exists i :: 0 <= i < |items|
        && DecodeElement(env, items[i]) == Fail(DecodeList(env, items).exception)
        && forall j :: 0 <= j < i ==> DecodeElement(env, items[j]).Ok?
  {
    if items != [] {
      var tail := items[1..];
      DecodeListFailsAtFirstBadElement(env, tail);
      assert forall i :: 1 <= i < |items| ==> items[i] == tail[i - 1];
      if DecodeElement(env, items[0]).Fail? {
        assert DecodeElement(env, items[0]) == Fail(DecodeList(env, items).exception);
      } else if DecodeList(env, tail).Fail? {
        var k :| 0 <= k < |tail|
          && DecodeElement(env, tail[k]) == Fail(DecodeList(env, tail).exception)
          && forall j :: 0 <= j < k ==> DecodeElement(env, tail[j]).Ok?;
        assert items[k + 1] == tail[k];
        assert forall j :: 1 <= j < k + 1 ==> items[j] == tail[j - 1];
      } else {
        forall i | 0 <= i < |items|
          ensures DecodeElement(env, items[i]).Ok?
        {
          if i > 0 {
            assert items[i] == tail[i - 1];
          }
        }
      }
    }
  }

  /** An element that is neither an object nor null fails the cast of the list's element type. */
  lemma NonObjectElementFailsCast(env: Collaborators, element: Json)
    requires !element.JMap? && !element.JNull?
    ensures DecodeElement(env, element) == Fail(ClassCast(element))
  {
  }

  /**
   * A null list element is not rejected: it passes the cast of the list's
   * element type and reaches the verification-method constructor as null,
   * so it fails only if that constructor rejects null.
   */
  lemma NullElementReachesConstructor(env: Collaborators)
    ensures DecodeElement(env, JNull) == env.newVerificationMethod(None)
    ensures var made := env.newVerificationMethod(None);
      DecodeList(env, [JNull]) == if made.Ok? then Ok([made.value]) else Fail(made.exception)
  {
    assert [JNull][1..] == [];
    var made := env.newVerificationMethod(None);
    if made.Ok? {
      assert [made.value] + [] == [made.value];
    }
  }

  /** A single object under "verificationMethod" gives exactly the one method built from it. */
  lemma SingleObjectGivesOneMethod(env: Collaborators, doc: DidDocument)
    requires VerificationMethodKey in doc.json && doc.json[VerificationMethodKey].JMap?
    ensures
      var made := env.newVerificationMethod(Some(doc.json[VerificationMethodKey].fields));
      VerificationMethodsOf(env, doc) == if made.Ok? then Value([made.value]) else Throws(made.exception)
  {
  }

  /**
   * A list under "verificationMethod" gives one method per element, element
   * i built from list element i, exactly when every element can be built.
   */
  lemma ListGivesOneMethodPerElement(env: Collaborators, doc: DidDocument)
    requires VerificationMethodKey in doc.json && doc.json[VerificationMethodKey].JList?
    ensures var items := doc.json[VerificationMethodKey].items;
      VerificationMethodsOf(env, doc).Value? <==>
        forall i :: 0 <= i < |items| ==> DecodeElement(env, items[i]).Ok?
    ensures var items := doc.json[VerificationMethodKey].items;
      var r := VerificationMethodsOf(env, doc);
      r.Value? ==>
        && |r.value| == |items|
        && forall i :: 0 <= i < |items| ==> DecodeElement(env, items[i]) == Ok(r.value[i])
  {
    DecodeListSucceeds(env, doc.json[VerificationMethodKey].items);
  }

  /**
   * A list with an element that cannot be built makes the whole call throw,
   * with the exception of the first such element.
   */
  lemma BadElementFailsWholeCall(env: Collaborators, doc: DidDocument)
    requires VerificationMethodKey in doc.json && doc.json[VerificationMethodKey].JList?
    ensures var items := doc.json[VerificationMethodKey].items;
      VerificationMethodsOf(env, doc).Throws? <==>
        exists i :: 0 <= i < |items| && DecodeElement(env, items[i]).Fail?
    ensures var items := doc.json[VerificationMethodKey].items;
      var r := VerificationMethodsOf(env, doc);
      r.Throws? ==>
        exists i :: 0 <= i < |items|
          && DecodeElement(env, items[i]) == Fail(r.exception)
          && forall j :: 0 <= j < i ==> DecodeElement(env, items[j]).Ok?
  {
    DecodeListFailsAtFirstBadElement(env, doc.json[VerificationMethodKey].items);
  }

  /** An absent key, or a string, number, boolean or null under it, gives the empty list and no exception. */
  lemma OtherShapesGiveNoMethods(env: Collaborators, doc: DidDocument)
    requires VerificationMethodKey in doc.json ==>
      var v := doc.json[VerificationMethodKey];
      v.JNull? || v.JString? || v.JNumber? || v.JBool?
    ensures VerificationMethodsOf(env, doc) == Value([])
  {
  }

  // ---------------------------------------------------------------------------
  // Properties of construction
  // ---------------------------------------------------------------------------

  /** The exception a failed construction carries as its cause, check by check in order. */
  lemma ConstructFailureCause(env: Collaborators, json: JsonMap)
    ensures var context := env.getContext(json);
      context.Null? ==> Construct(env, json).Fail? && Construct(env, json).exception.cause == NullPointer(ContextIsNull)
    ensures var context := env.getContext(json);
      context.Throws? ==> Construct(env, json).Fail? && Construct(env, json).exception.cause == context.exception
    ensures var id := GetId(env, DidDocument(json));
      env.getContext(json).Value? && id.Null? ==>
        Construct(env, json).Fail? && Construct(env, json).exception.cause == NullPointer(IdIsNull)
    ensures var id := GetId(env, DidDocument(json));
      env.getContext(json).Value? && id.Throws? ==>
        Construct(env, json).Fail? && Construct(env, json).exception.cause == id.exception
    ensures var vms := VerificationMethodsOf(env, DidDocument(json));
      env.getContext(json).Value? && GetId(env, DidDocument(json)).Value? && vms.Throws? ==>
        Construct(env, json).Fail? && Construct(env, json).exception.cause == vms.exception
  {
  }

  /**
   * The null check on the verification methods never fails by itself: once
   * the context and id checks pass, construction fails only on an exception
   * thrown while building the methods.
   */
  lemma VerificationMethodNullCheckNeverFires(env: Collaborators, json: JsonMap)
    requires env.getContext(json).Value? && GetId(env, DidDocument(json)).Value?
    ensures RequireNonNull(VerificationMethodsOf(env, DidDocument(json)), VerificationMethodIsNull) ==
      if VerificationMethodsOf(env, DidDocument(json)).Throws?
      then Some(VerificationMethodsOf(env, DidDocument(json)).exception)
      else None
  {
  }

  /** A document without a "verificationMethod" key constructs when its context and id are fine. */
  lemma MissingVerificationMethodStillConstructs(env: Collaborators, json: JsonMap)
    requires VerificationMethodKey !in json
    requires env.getContext(json).Value? && GetId(env, DidDocument(json)).Value?
    ensures Construct(env, json) == Ok(DidDocument(json))
    ensures VerificationMethodsOf(env, DidDocument(json)) == Value([])
  {
  }

  /**
   * What construction establishes and the accessors keep: a constructed
   * document has a non-null context, a non-null id and a list of methods,
   * each of which the accessors produce again when called.
   */
  lemma ConstructedDocumentIsValid(env: Collaborators, json: JsonMap)
    requires Construct(env, json).Ok?
    ensures var doc := Construct(env, json).value;
      && env.getContext(doc.json).Value?
      && GetId(env, doc).Value?
      && VerificationMethodsOf(env, doc).Value?
  {
  }
}
