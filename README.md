# Ninja argument extractors and the multipart upload echo, in Dafny

This project models two parts of the Ninja web framework and proves properties of them.

The first part is the built-in argument extractors (`ninja.params.ArgumentExtractors`). An extractor turns a request context into one argument of a controller method. The model has three pieces:

- the static registry that maps the four ambient types (Context, Validation, Session, FlashScope) to shared extractors;
- the keyed extractors, each built from a parameter annotation whose value becomes its only, final key;
- `extract`, `getExtractedType` and `getFieldName` for every extractor class.

Java classes become the `TypeTag` enumeration. Every extractor class becomes one constructor of the `Extractor` datatype. The request context becomes a record of maps. A missing key stands for a lookup that returns null. `getAttribute` and `parseBody` are function-valued fields that the model leaves uninterpreted.

The second part is the demo application's upload echo (`controllers.UploadController`). `uploadFinish` returns a 200 result that renders through an anonymous `Renderable`. That renderable walks the multipart parts once, in arrival order. For each part it does four things:

- it opens the part's stream;
- it sets the result's content type when the part declares one;
- it calls `finalizeHeaders`;
- it drains a form field, or copies a file part's bytes to the response output.

The context and the result are classes whose fields the loop updates. The loop method is proved against `Run`, a step-by-step function of the same walk. Lemmas relate `Run` to independent definitions of the output bytes, the final content type, the finalize calls and the opened streams.

Files: `wrappers.dfy` (Option), `extractors.dfy` (module `ArgumentExtractors`), `upload.dfy` (module `Upload`).

## Behaviour the model keeps as the code has it

- finalizeHeaders is called once per part, with no guard (UploadController.java:91). The model records every call and assumes no one-shot check in Context. `Upload.RepeatedFinalization` shows that two parts give two calls on the same result.
- For a part with no declared content type, the MIME lookup's answer goes only into a local variable (UploadController.java:87). The result keeps its previous content type, in the code and in the model.
- `PathParamExtractor.extract` returns whatever the context answers for the key, null included (ArgumentExtractors.java:126-128). The model does not assume the router always supplies the parameter.

## Model

| member | source | states |
|---|---|---|
| `ArgumentExtractors.GetExtractorForType` | ninja-core/src/main/java/ninja/params/ArgumentExtractors.java:38-48 | an extractor is found exactly for Context, Validation, Session and FlashScope, by exact tag with no subtype matching; the entry found reports the key it is stored under as its extracted type, has a null field name, and is neither an attribute nor a body extractor |
| `ArgumentExtractors.Extract` | ninja-core/src/main/java/ninja/params/ArgumentExtractors.java:50-365 | the extract methods of all fourteen extractor classes; only the attribute and body extractors can fail, and a multi-valued extractor never returns an empty array |
| `ArgumentExtractors.GetExtractedType` | ninja-core/src/main/java/ninja/params/ArgumentExtractors.java:50-365 | the getExtractedType methods: the ambient extractors report an ambient type, the other keyed extractors one of String, String[], InputStream and InputStream[], and the attribute and body extractors the class they were built with |
| `ArgumentExtractors.GetFieldName` | ninja-core/src/main/java/ninja/params/ArgumentExtractors.java:50-365 | the getFieldName methods: null exactly for the four ambient extractors and the body extractor, and a name for every keyed extractor (which name is stated by FromAnnotation) |
| `ArgumentExtractors.AmbientExtractors` | ninja-core/src/main/java/ninja/params/ArgumentExtractors.java:50-116 | the registry's Context extractor returns the very context passed in; the Validation, Session and Flash extractors return that context's validation, session and flash scope |
| `ArgumentExtractors.FromAnnotation` | ninja-core/src/main/java/ninja/params/ArgumentExtractors.java:118-342 | each annotation builds its own extractor class: the annotation's value becomes the field name; the extracted type is String for PathParam, Param, Header and SessionParam, String[] for Params and Headers, InputStream for FileParam, InputStream[] for FileParams, and the class-holder's class for Attribute, which alone builds an attribute extractor |
| `ArgumentExtractors.KeyedLookups` | ninja-core/src/main/java/ninja/params/ArgumentExtractors.java:118-315 | the extractors built from PathParam, Param, Header, SessionParam and FileParam return exactly the context's lookup under the annotation's value, null when that key is absent |
| `ArgumentExtractors.ToArrayOrNull` | ninja-core/src/main/java/ninja/params/ArgumentExtractors.java:172-178 | a null or empty list gives null, never an empty array; any other list gives an array of the same length with the same elements in the same order |
| `ArgumentExtractors.MultiValuedPolicy` | ninja-core/src/main/java/ninja/params/ArgumentExtractors.java:164-292 | the extractors built from Params, Headers and FileParams return null when the context has no list or an empty list under the annotation's value, and otherwise that whole list in order |
| `ArgumentExtractors.TypedLookups` | ninja-core/src/main/java/ninja/params/ArgumentExtractors.java:317-365 | the attribute extractor built from an Attribute annotation reports the class-holder's class and passes that same class and the annotation's value to getAttribute; the body extractor reports bodyType, passes it to parseBody and has a null field name; a collaborator's exception escapes as it is |
| `ArgumentExtractors.ExtractIsWellTyped` | ninja-core/src/main/java/ninja/params/ArgumentExtractors.java:50-365 | when getAttribute and parseBody honour their class argument, every value any extractor returns is null or an instance of exactly the type that extractor reports |
| `ArgumentExtractors.Deterministic` | ninja-core/src/main/java/ninja/params/ArgumentExtractors.java:118-365 | an extractor has no hidden state: on two contexts that agree on what it reads under its own key (or on the whole context, for the Context extractor), it gives the same result |
| `Upload.UploadController.UploadFinish` | ninja-demo-application/src/main/java/controllers/UploadController.java:60-115 | uploadFinish returns a fresh result with status 200, no content type yet, and the upload echo attached as its renderable |
| `Upload.UploadController.RenderUploadEcho` | ninja-demo-application/src/main/java/controllers/UploadController.java:63-111 | a request that is not multipart changes nothing; otherwise the iterator is consumed to its end and the new state is Run of the old one over the remaining parts: one finalize call per part, output extended by exactly the file parts' bytes, content type the last declared one, and every part opened and read once, in order; status and renderable unchanged |
| `Upload.RunOutput` | ninja-demo-application/src/main/java/controllers/UploadController.java:93-105 | the output receives, after what it held, the concatenation in part order of the bytes of the non-form-field parts |
| `Upload.FormFieldsWriteNothing` | ninja-demo-application/src/main/java/controllers/UploadController.java:93-96 | a request made only of form fields writes no bytes to the output |
| `Upload.RunContentType` | ninja-demo-application/src/main/java/controllers/UploadController.java:82-88 | after the walk the result's content type is the one a front-to-back scan of declared types leaves, starting from the old content type |
| `Upload.LastDeclaredIsLast` | ninja-demo-application/src/main/java/controllers/UploadController.java:82-88 | that scan yields the declared type of the last part that declared one, and the starting content type when no part declared one |
| `Upload.RunFinalizations` | ninja-demo-application/src/main/java/controllers/UploadController.java:76-91 | finalizeHeaders is called exactly once per part, in iteration order, and call j carries the content type left by parts up to j; earlier calls are kept |
| `Upload.RepeatedFinalization` | ninja-demo-application/src/main/java/controllers/UploadController.java:91 | with two or more parts, the headers of the same result are finalized at least twice |
| `Upload.RunStreams` | ninja-demo-application/src/main/java/controllers/UploadController.java:78-105 | each part's stream is opened once and read to its end, in part order |
| `Upload.CaptionAndImage` | ninja-demo-application/src/main/java/controllers/UploadController.java:76-107 | a caption form field followed by a PNG file part leaves content type image/png and output equal to the file's bytes, with two finalize calls |

## Left out

- Guice injection, Java reflection and `Class` objects: types are the `TypeTag` enumeration, and the attribute extractor's class holder is a plain parameter of `FromAnnotation`.
- Logging (`System.out.println`, the logger) and the string a form field's stream is decoded into, which serves only that log line.
- `upload()` and `Results.html()`: view rendering through a template engine that is not part of this model.
- The internals of Context, Session, FlashScope, Validation and MimeTypes. The context's maps stand for its lookups. `getAttribute` (including its type check) and `parseBody` (JSON/XML deserialisation) are uninterpreted functions. `MimeTypes.getMimeType` is a table lookup whose answer the loop discards.
- Real stream I/O (`openStream`, `Streams.asString`, `ByteStreams.copy`), I/O exceptions and transport cancellation: a part's payload is a byte sequence, the output an appended sequence, and an opened stream a part index.
- Parsing of multipart/form-data: the context holds the already-split parts.
- The factory that picks an extractor for a parameter descriptor: it is not in `ArgumentExtractors`; `FromAnnotation` stands for the extractor constructors only.
- `RenderUploadEcho` requires the iterator cursor to lie within the parts (`Valid`), an invariant every context the model builds keeps.
