# DID document validation and verification-method normalisation

This project models the `DidDocument` class of the Eclipse Tractus-X SSI
library in Dafny. A `DidDocument` wraps a string-keyed JSON map that is meant
to follow W3C DID Core. Its constructor checks three things: the context
lookup gives a non-null value, the value under "id" converts to a non-null URI,
and the verification methods decode. These are the fields DID Core defines in
sections 6.3.1, 5.1.1 and 5.2. The constructor does not check conformance to
DID Core: it never requires the default context, never checks that the id is a
DID, and leaves each verification method to its own constructor. The class then
offers two accessors that read the map again on each call:
- `getId` converts the value under `"id"` to a URI;
- `getVerificationMethods` turns the value under `"verificationMethod"` into a
  list of verification methods. A single object gives one method and a list of
  objects gives one method per element. Any other shape gives none.

The model has two modules.
- `Json` (`json.dfy`) holds the JSON value datatype (null, string, number,
  bool, map, list) and `Lookup`, which reads keys the way Java's `Map.get` does:
  an absent key and a key holding JSON null both read as null.
- `DidDocuments` (`did_document.dfy`) holds the document, its constructor, its
  accessors, `fromJson`, the field-key constants and the lemmas.

Five collaborator functions are not part of this model. Their behaviour enters only as
parameters, the fields of a `Collaborators` value; every contract is stated
relative to them:
- `JsonLdObject.getContext`, which may return null or throw;
- `SerializeUtil.asURI`, which may return null or throw;
- the `VerificationMethod` constructor, which may throw but never returns null;
- `SerializeUtil.fromJson` and `SerializeUtil.toJson`.

A Java call that can return null is modelled as a `Call` (a value, null, or an
exception). A call that cannot return null is a `Result`.

The constructor is a pure function returning a `Result`. It runs the three
`Objects.requireNonNull` checks of the source in order: the context, the id,
then the verification-method list. Any failure becomes one `IllegalArgument`
exception that carries the rendered input and the cause.
`getVerificationMethods` is a method that appends to a sequence in a loop. It is
proved equal to the function `VerificationMethodsOf`, which the constructor
uses.

A reading under which the `verificationMethod` key is required would reject a
document without it; the code does not. `getVerificationMethods` always
returns a freshly built list, so the null check on it can never fail by
itself. A document without the key therefore constructs, with an empty list of
methods (`MissingVerificationMethodStillConstructs`).

Two calls of `getVerificationMethods` on the same document give equal outcomes
(`GetVerificationMethodsTwice`). This holds in the model because every
collaborator is a mathematical function. In Java it also needs the
`VerificationMethod` constructor to be deterministic and its `equals` to
compare by content.

## Model

| member | source | states |
|---|---|---|
| `DidDocuments.GetId` | src/main/java/org/eclipse/tractusx/ssi/lib/model/did/DidDocument.java:57-59 | the id is the URI conversion of the value under "id"; an absent key is converted exactly as a JSON null |
| `DidDocuments.VerificationMethodsOf` | src/main/java/org/eclipse/tractusx/ssi/lib/model/did/DidDocument.java:63-74 | the verification-method accessor never returns null: it gives a list or throws |
| `DidDocuments.GetVerificationMethods` | src/main/java/org/eclipse/tractusx/ssi/lib/model/did/DidDocument.java:61-75 | the list built by appending to a sequence, in the object branch and in the loop over the list, is exactly the normalisation `VerificationMethodsOf`; an exception returns no partial list |
| `DidDocuments.GetVerificationMethodsTwice` | src/main/java/org/eclipse/tractusx/ssi/lib/model/did/DidDocument.java:61-75 | calling the accessor twice on the same document gives the same outcome |
| `DidDocuments.DecodeListSucceeds` | src/main/java/org/eclipse/tractusx/ssi/lib/model/did/DidDocument.java:69-72 | a list decodes exactly when every element does; the result then has one method per element, element i built from list element i |
| `DidDocuments.DecodeListFailsAtFirstBadElement` | src/main/java/org/eclipse/tractusx/ssi/lib/model/did/DidDocument.java:70-71 | a list fails exactly when some element fails, and then with the exception of the first failing element, every earlier one having succeeded |
| `DidDocuments.NonObjectElementFailsCast` | src/main/java/org/eclipse/tractusx/ssi/lib/model/did/DidDocument.java:70-71 | a list element that is neither an object nor null fails the cast to a map |
| `DidDocuments.NullElementReachesConstructor` | src/main/java/org/eclipse/tractusx/ssi/lib/model/did/DidDocument.java:70-71 | a null list element is not a cast failure: it reaches the verification-method constructor as null, and a list `[null]` gives that constructor's one method or its exception |
| `DidDocuments.SingleObjectGivesOneMethod` | src/main/java/org/eclipse/tractusx/ssi/lib/model/did/DidDocument.java:66-68 | a single object gives exactly the one method its constructor builds, or that constructor's exception |
| `DidDocuments.ListGivesOneMethodPerElement` | src/main/java/org/eclipse/tractusx/ssi/lib/model/did/DidDocument.java:69-72 | a list gives a list of the same length, in source order, exactly when every element can be built |
| `DidDocuments.BadElementFailsWholeCall` | src/main/java/org/eclipse/tractusx/ssi/lib/model/did/DidDocument.java:69-72 | a list with an element that cannot be built makes the whole accessor throw, with the first such element's exception |
| `DidDocuments.OtherShapesGiveNoMethods` | src/main/java/org/eclipse/tractusx/ssi/lib/model/did/DidDocument.java:63-74 | an absent key, or a string, number, boolean or null value, gives the empty list and no exception |
| `DidDocuments.Construct` | src/main/java/org/eclipse/tractusx/ssi/lib/model/did/DidDocument.java:43-55 | construction succeeds iff the context is non-null, the id converts to a non-null URI, and the verification methods do not throw; success wraps the input map unchanged; failure is one IllegalArgument carrying the rendered input |
| `DidDocuments.ConstructFailureCause` | src/main/java/org/eclipse/tractusx/ssi/lib/model/did/DidDocument.java:46-54 | the cause carried by a failed construction is that of the first failing check, in the order context, id, verification methods |
| `DidDocuments.VerificationMethodNullCheckNeverFires` | src/main/java/org/eclipse/tractusx/ssi/lib/model/did/DidDocument.java:50 | the third null check fails only on an exception thrown while building the methods, never on a null list |
| `DidDocuments.MissingVerificationMethodStillConstructs` | src/main/java/org/eclipse/tractusx/ssi/lib/model/did/DidDocument.java:48-50 | a document without the "verificationMethod" key, whose context and id are fine, constructs and has no verification methods |
| `DidDocuments.ConstructedDocumentIsValid` | src/main/java/org/eclipse/tractusx/ssi/lib/model/did/DidDocument.java:46-50 | a constructed document has a non-null context, a non-null id URI and a non-failing verification-method list when the accessors are called again |
| `DidDocuments.FromJson` | src/main/java/org/eclipse/tractusx/ssi/lib/model/did/DidDocument.java:77-80 | `fromJson` succeeds iff parsing succeeds and construction from the parsed map succeeds; a parse failure propagates unwrapped |

## Left out

- How `JsonLdObject.getContext`, `SerializeUtil.asURI`, the `VerificationMethod` constructor, `SerializeUtil.fromJson` and `SerializeUtil.toJson` work: they are not part of this model and enter only as parameters. No URI syntax (RFC 3986) is checked here.
- The `JsonLdObject` constructor (`super(json)`): it is assumed to accept every map and to keep it unchanged.
- A parser that returns null (for the text `null`): the parser is modelled as giving a map or an exception.
- An exception thrown by `SerializeUtil.toJson` while the error is being built: rendering is modelled as total.
- The exact error-message text ("Invalid DidDocument: %s") and the Lombok-generated `toString`: they are diagnostics only. The error carries the rendered input as its own field.
- Java generics and the difference between exception classes: a list element that is neither an object nor null becomes one `ClassCast` exception; a null element reaches the constructor as null; and every collaborator failure is an opaque `Exception` value.
- Sharing and mutation of the backing map by other code: a document is modelled as an immutable value, since nothing in this class changes the map.
- `AuthenticationKey` and `DefaultContext`: the class only declares these constants and never reads them.
