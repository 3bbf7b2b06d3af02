/**
  The multipart echo of the demo application (controllers.UploadController).

  uploadFinish answers with a 200 result whose body is produced later by a renderable.
  That renderable walks the parts of a multipart request once, in arrival order: for
  each part it opens the part's stream, sets the result's content type when the part
  declares one, calls finalizeHeaders on the context, and then either drains the part
  (a form field, logged only) or copies its bytes to the response output (a file).

  The request context and the result are classes whose fields the loop updates. The
  loop is proved against Run, a step-by-step account of the same walk; the lemmas
  below relate Run to independent descriptions of what ends up in the response.
 */
module Upload {

  import opened Wrappers

  newtype Byte = b: int | 0 <= b < 256

  /** One part of a multipart request, with its whole payload. */
  datatype Part = Part(fieldName: string, contentType: Option<string>, isFormField: bool, data: seq<Byte>)

  /** The MIME table of the application; getMimeType answers null for an unknown name. */
  datatype MimeTypes = MimeTypes(table: map<string, string>) {
    function GetMimeType(name: string): Option<string> {
      if name in table then Some(table[name]) else None
    }
  }

  // ---------------------------------------------------------------------------
  // What the render loop does, one part at a time
  // ---------------------------------------------------------------------------

  /**
    The state the render loop changes: the result's content type, the parts whose
    stream was opened and read to the end, the content type passed along with each
    finalizeHeaders call, and the bytes written to the response output.
   */
  datatype EchoState = EchoState(
    contentType: Option<string>,
    openedParts: seq<nat>,
    drainedParts: seq<nat>,
    finalizations: seq<Option<string>>,
    output: seq<Byte>)

  /** The content type after a part: its declared one, else unchanged. */
  function ContentTypeAfter(current: Option<string>, p: Part): Option<string> {
    if p.contentType.Some? then p.contentType else current
  }

  /** One pass of the loop body on part number k. */
  function Step(s: EchoState, k: nat, p: Part): EchoState {
    var ct := ContentTypeAfter(s.contentType, p);
    EchoState(ct, s.openedParts + [k], s.drainedParts + [k], s.finalizations + [ct],
              if p.isFormField then s.output else s.output + p.data)
  }

  /** The loop run over parts from..stop-1, starting in state s. */
  function Run(s: EchoState, parts: seq<Part>, from: nat, stop: nat): EchoState
    requires from <= stop <= |parts|
    decreases stop
  {
    if from == stop then s else Step(Run(s, parts, from, stop - 1), stop - 1, parts[stop - 1])
  }

  /** The indices from..stop-1, in order. */
  function Range(from: nat, stop: nat): seq<nat>
    requires from <= stop
  {
    seq(stop - from, i => from + i)
  }

  /** The bytes of the file parts, concatenated in part order; form fields contribute nothing. */
  function FileBytes(parts: seq<Part>): seq<Byte> {
    if parts == [] then []
    else (if parts[0].isFormField then [] else parts[0].data) + FileBytes(parts[1..])
  }

  /** The content type left by a sequence of parts, read front to back. */
  function LastDeclared(parts: seq<Part>, init: Option<string>): Option<string> {
    if parts == [] then init else LastDeclared(parts[1..], ContentTypeAfter(init, parts[0]))
  }

  // ---------------------------------------------------------------------------
  // Properties of the walk
  // ---------------------------------------------------------------------------

  lemma {:induction false} FileBytesAppend(parts: seq<Part>, p: Part)
    ensures FileBytes(parts + [p]) == FileBytes(parts) + (if p.isFormField then [] else p.data)
  {
    if parts == [] {
      assert parts + [p] == [p];
      assert [p][1..] == [];
    } else {
      assert (parts + [p])[1..] == parts[1..] + [p];
      FileBytesAppend(parts[1..], p);
    }
  }

  lemma {:induction false} LastDeclaredAppend(parts: seq<Part>, p: Part, init: Option<string>)
    ensures LastDeclared(parts + [p], init) == ContentTypeAfter(LastDeclared(parts, init), p)
  {
    if parts == [] {
      assert parts + [p] == [p];
      assert [p][1..] == [];
    } else {
      assert (parts + [p])[1..] == parts[1..] + [p];
      LastDeclaredAppend(parts[1..], p, ContentTypeAfter(init, parts[0]));
    }
  }

  /** The content type left behind is the declared type of the last part that declared one. */
  lemma {:induction false} LastDeclaredIsLast(parts: seq<Part>, init: Option<string>)
    ensures (forall j :: 0 <= j < |parts| ==> parts[j].contentType.None?) ==> LastDeclared(parts, init) == init
    ensures forall k :: 0 <= k < |parts| && parts[k].contentType.Some? &&
                        (forall j :: k < j < |parts| ==> parts[j].contentType.None?) ==>
                        LastDeclared(parts, init) == parts[k].contentType
  {
    if parts != [] {
      var rest := parts[1..];
      var next := ContentTypeAfter(init, parts[0]);
      LastDeclaredIsLast(rest, next);
      if forall j :: 0 <= j < |parts| ==> parts[j].contentType.None? {
        assert forall j :: 0 <= j < |rest| ==> rest[j].contentType.None? by {
          forall j | 0 <= j < |rest| ensures rest[j].contentType.None? { assert rest[j] == parts[j + 1]; }
        }
      }
      forall k | 0 <= k < |parts| && parts[k].contentType.Some? &&
                 (forall j :: k < j < |parts| ==> parts[j].contentType.None?)
        ensures LastDeclared(parts, init) == parts[k].contentType
      {
        if k == 0 {
          forall j | 0 <= j < |rest| ensures rest[j].contentType.None? { assert rest[j] == parts[j + 1]; }
        } else {
          assert rest[k - 1] == parts[k];
          forall j | k - 1 < j < |rest| ensures rest[j].contentType.None? { assert rest[j] == parts[j + 1]; }
        }
      }
    }
  }

  /** A request made only of form fields writes nothing to the response. */
  lemma {:induction false} FormFieldsWriteNothing(parts: seq<Part>)
    requires forall j :: 0 <= j < |parts| ==> parts[j].isFormField
    ensures FileBytes(parts) == []
  {
    if parts != [] {
      assert forall j :: 0 <= j < |parts[1..]| ==> parts[1..][j] == parts[j + 1];
      FormFieldsWriteNothing(parts[1..]);
    }
  }

  /** The output receives exactly the file parts' bytes, in part order, after what it held. */
  lemma {:induction false} RunOutput(s: EchoState, parts: seq<Part>, from: nat, stop: nat)
    requires from <= stop <= |parts|
    ensures Run(s, parts, from, stop).output == s.output + FileBytes(parts[from..stop])
    decreases stop
  {
    if from == stop {
      assert parts[from..stop] == [];
    } else {
      RunOutput(s, parts, from, stop - 1);
      assert parts[from..stop] == parts[from..stop - 1] + [parts[stop - 1]];
      FileBytesAppend(parts[from..stop - 1], parts[stop - 1]);
    }
  }

  /** The result's content type ends as the last declared one; undeclared parts leave it alone. */
  lemma {:induction false} RunContentType(s: EchoState, parts: seq<Part>, from: nat, stop: nat)
    requires from <= stop <= |parts|
    ensures Run(s, parts, from, stop).contentType == LastDeclared(parts[from..stop], s.contentType)
    decreases stop
  {
    if from == stop {
      assert parts[from..stop] == [];
    } else {
      RunContentType(s, parts, from, stop - 1);
      assert parts[from..stop] == parts[from..stop - 1] + [parts[stop - 1]];
      LastDeclaredAppend(parts[from..stop - 1], parts[stop - 1], s.contentType);
    }
  }

  /**
    finalizeHeaders is called once per part, in part order, and the j-th call sees the
    content type left by the parts up to and including part j.
   */
  lemma {:induction false} RunFinalizations(s: EchoState, parts: seq<Part>, from: nat, stop: nat)
    requires from <= stop <= |parts|
    ensures var f := Run(s, parts, from, stop).finalizations;
            && |f| == |s.finalizations| + (stop - from)
            && f[..|s.finalizations|] == s.finalizations
            && (forall j :: |s.finalizations| <= j < |f| ==>
                  f[j] == LastDeclared(parts[from..from + (j - |s.finalizations|) + 1], s.contentType))
    decreases stop
  {
    if from < stop {
      RunFinalizations(s, parts, from, stop - 1);
      RunContentType(s, parts, from, stop);
    }
  }

  /** Every part's stream is opened once and read to its end, in part order. */
  lemma {:induction false} RunStreams(s: EchoState, parts: seq<Part>, from: nat, stop: nat)
    requires from <= stop <= |parts|
    ensures Run(s, parts, from, stop).openedParts == s.openedParts + Range(from, stop)
    ensures Run(s, parts, from, stop).drainedParts == s.drainedParts + Range(from, stop)
    decreases stop
  {
    if from == stop {
      assert Range(from, stop) == [];
    } else {
      RunStreams(s, parts, from, stop - 1);
      assert Range(from, stop) == Range(from, stop - 1) + [stop - 1];
    }
  }

  /**
    Nothing in the loop guards finalizeHeaders: a request with two or more parts
    finalizes the headers of the same result at least twice.
   */
  lemma RepeatedFinalization(s: EchoState, parts: seq<Part>)
    requires |parts| >= 2
    ensures |Run(s, parts, 0, |parts|).finalizations| >= |s.finalizations| + 2
  {
    RunFinalizations(s, parts, 0, |parts|);
  }

  /**
    A form field "caption" followed by a PNG file: the response carries the file's
    bytes and its content type, and the caption's value is not written.
   */
  lemma CaptionAndImage(caption: seq<Byte>, png: seq<Byte>)
    ensures var parts := [Part("caption", None, true, caption), Part("upload", Some("image/png"), false, png)];
            var r := Run(EchoState(None, [], [], [], []), parts, 0, 2);
            && r.contentType == Some("image/png")
            && r.output == png
            && r.finalizations == [None, Some("image/png")]
            && r.openedParts == [0, 1] && r.drainedParts == [0, 1]
  {
  }

  // ---------------------------------------------------------------------------
  // The objects the loop works on
  // ---------------------------------------------------------------------------

  /** What a result renders itself with; the upload echo keeps its controller. */
  datatype Renderable = UploadEcho(controller: UploadController)

  /** The pending response: status code, content type (null until set) and renderable. */
  class Result {
    var status: int
    var contentType: Option<string>
    var renderable: Option<Renderable>

    constructor (statusCode: int)
      ensures status == statusCode && contentType.None? && renderable.None?
    {
      status := statusCode;
      contentType := None;
      renderable := None;
    }

    /** Result.contentType(String) */
    method SetContentType(ct: string)
      modifies this`contentType
      ensures contentType == Some(ct)
    {
      contentType := Some(ct);
    }

    /** Result.render(Renderable) */
    method Render(r: Renderable)
      modifies this`renderable
      ensures renderable == Some(r)
    {
      renderable := Some(r);
    }
  }

  /**
    The request context as the render loop uses it: whether the request is multipart,
    its parts, the position of the single-pass part iterator, and a record of the
    calls the loop makes on the context and on the response streams.
   */
  class RequestContext {
    const multipart: bool
    const parts: seq<Part>
    var position: nat
    var openedParts: seq<nat>
    var drainedParts: seq<nat>
    var finalizations: seq<Option<string>>
    var output: seq<Byte>

    constructor (multipart: bool, parts: seq<Part>)
      ensures Valid() && this.multipart == multipart && this.parts == parts && position == 0
      ensures openedParts == [] && drainedParts == [] && finalizations == [] && output == []
    {
      this.multipart := multipart;
      this.parts := parts;
      position := 0;
      openedParts, drainedParts, finalizations, output := [], [], [], [];
    }

    /** The iterator's cursor never passes the last part. */
    ghost predicate Valid()
      reads this
    {
      position <= |parts|
    }

    /** The loop's view of the context and the result together. */
    ghost function Snapshot(result: Result): EchoState
      reads this, result
    {
      EchoState(result.contentType, openedParts, drainedParts, finalizations, output)
    }

    predicate HasNext()
      reads this
    {
      position < |parts|
    }

    /** FileItemIterator.next: the part at the cursor, with its index. */
    method Next() returns (k: nat, item: Part)
      requires HasNext()
      modifies this`position
      ensures Valid()
      ensures k == old(position) && k < |parts| && item == parts[k] && position == k + 1
    {
      k, item := position, parts[position];
      position := position + 1;
    }

    /** FileItemStream.openStream: the stream of part k. */
    method OpenStream(k: nat) returns (stream: nat)
      requires k < |parts|
      modifies this`openedParts
      ensures openedParts == old(openedParts) + [k] && stream == k
    {
      openedParts := openedParts + [k];
      stream := k;
    }

    /** Reads the stream of part k to its end. */
    method ReadAll(stream: nat) returns (data: seq<Byte>)
      requires stream < |parts|
      modifies this`drainedParts
      ensures drainedParts == old(drainedParts) + [stream] && data == parts[stream].data
    {
      drainedParts := drainedParts + [stream];
      data := parts[stream].data;
    }

    /** Context.finalizeHeaders(result): recorded with the content type it commits. */
    method FinalizeHeaders(result: Result)
      modifies this`finalizations
      ensures finalizations == old(finalizations) + [result.contentType]
    {
      finalizations := finalizations + [result.contentType];
    }

    /** Writing to the output stream handed out by finalizeHeaders. */
    method WriteOutput(bytes: seq<Byte>)
      modifies this`output
      ensures output == old(output) + bytes
    {
      output := output + bytes;
    }
  }

  class UploadController {
    const mimeTypes: MimeTypes

    constructor (mimeTypes: MimeTypes)
      ensures this.mimeTypes == mimeTypes
    {
      this.mimeTypes := mimeTypes;
    }

    /** uploadFinish: a fresh 200 result that renders through the upload echo. */
    method UploadFinish(context: RequestContext) returns (r: Result)
      ensures fresh(r) && r.status == 200 && r.contentType.None?
      ensures r.renderable == Some(UploadEcho(this))
    {
      r := new Result(200);
      r.Render(UploadEcho(this));
    }

    /** The upload echo's render(context, result). */
    method RenderUploadEcho(context: RequestContext, result: Result)
      requires context.Valid()
      modifies context, result
      ensures context.Valid()
      ensures result.status == old(result.status) && result.renderable == old(result.renderable)
      ensures !context.multipart ==> unchanged(context) && unchanged(result)
      ensures context.multipart ==>
                && context.position == |context.parts|
                && context.Snapshot(result) ==
                     Run(old(context.Snapshot(result)), context.parts, old(context.position), |context.parts|)
      ensures context.multipart ==>
                var rest := context.parts[old(context.position)..];
                && |context.finalizations| == |old(context.finalizations)| + |rest|
                && context.output == old(context.output) + FileBytes(rest)
                && result.contentType == LastDeclared(rest, old(result.contentType))
                && context.openedParts == old(context.openedParts) + Range(old(context.position), |context.parts|)
                && context.drainedParts == old(context.drainedParts) + Range(old(context.position), |context.parts|)
    {
      if context.multipart {
        ghost var s0 := context.Snapshot(result);
        ghost var from := context.position;
        while context.HasNext()
          invariant from <= context.position <= |context.parts|
          invariant context.Snapshot(result) == Run(s0, context.parts, from, context.position)
          invariant result.status == old(result.status) && result.renderable == old(result.renderable)
          decreases |context.parts| - context.position
        {
          var k, item := context.Next();
          var name := item.fieldName;
          var stream := context.OpenStream(k);
          var contentType := item.contentType;
          if contentType.Some? {
            result.SetContentType(contentType.value);
          } else {
            // the looked-up type stays in this local; the result is not changed
            contentType := mimeTypes.GetMimeType(name);
          }
          context.FinalizeHeaders(result);
          if item.isFormField {
            var value := context.ReadAll(stream);
          } else {
            var bytes := context.ReadAll(stream);
            context.WriteOutput(bytes);
          }
        }
        assert context.parts[from..|context.parts|] == context.parts[from..];
        RunOutput(s0, context.parts, from, |context.parts|);
        RunContentType(s0, context.parts, from, |context.parts|);
        RunFinalizations(s0, context.parts, from, |context.parts|);
        RunStreams(s0, context.parts, from, |context.parts|);
      }
    }
  }
}
