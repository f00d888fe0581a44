/**
 * The resource-envelope codec and handle helpers shared by every Terraform resource:
 * every device API response is `{"data": {"resourceId": {...}, "content": {...}}}`, and a
 * resource is addressed afterwards by a handle made of the device name and its href.
 */
module Envelope {
  import opened Wrappers
  import opened Json
  import opened Text

  datatype EnvelopeError =
    | Undecodable(cause: DecodeError)   // the body is not a JSON object
    | NoResourceIdAndContent           // "getResourceIdNContent: No ResourceID and Content data:"
    | NoContent                        // "getResourceIdNContent: No Content data"
    | NoResourceId                     // "getResourceIdNContent: No ResourceID data"
    | NoEnvelope(body: string)         // "SetResourceId: No ResourceID and/or Content data:" + body
    | HrefMissing                      // the Go code panics: nil is not a string
    | HrefNotString                    // the Go code panics: the href is some other JSON value

  /** The sub-objects found in an envelope, as `getResourceIdNContent` returns them. */
  datatype Parts = Parts(resourceId: Option<Obj>, content: Option<Obj>, err: Option<EnvelopeError>)

  /** `getContent`: the top-level `content` object of a response. */
  function GetContent(body: Body): (r: Result<Obj, EnvelopeError>)
    ensures UnmarshalObject(body).Failure? ==> r == Failure(Undecodable(UnmarshalObject(body).error))
    ensures UnmarshalObject(body).Success? ==>
              match AsObject(Get(UnmarshalObject(body).value, "content"))
              case Some(c) => r == Success(c)
              case None => r == Failure(NoContent)
  {
    match UnmarshalObject(body)
    case Failure(e) => Failure(Undecodable(e))
    case Success(top) =>
      match AsObject(Get(top, "content"))
      case Some(c) => Success(c)
      case None => Failure(NoContent)
  }

  /**
   * `getContent` reads `content` at the top level, `getResourceIdNContent` under `data`: on
   * the usual envelope, a `data` object and nothing beside it, the first finds no content
   * where the second finds it.
   */
  lemma ContentLevels(body: Body, data: Obj)
    requires UnmarshalObject(body) == Success(map["data" := JObject(data)])
    requires AsObject(Get(data, "content")).Some?
    ensures GetContent(body) == Failure(NoContent)
    ensures ResourceIdAndContent(body).content == AsObject(Get(data, "content"))
  {
    assert Get(map["data" := JObject(data)], "content") == JNull;
  }

  /** `getResourceIdNContent`: the `resourceId` and `content` objects under `data`. */
  function ResourceIdAndContent(body: Body): (r: Parts)
    // an undecodable body: both nil, and the decoder's error
    ensures UnmarshalObject(body).Failure? ==>
              r == Parts(None, None, Some(Undecodable(UnmarshalObject(body).error)))
    // no `data` object: both nil and, as the Go code has it, no error either
    ensures UnmarshalObject(body).Success? && AsObject(Get(UnmarshalObject(body).value, "data")).None? ==>
              r == Parts(None, None, None)
    // a `data` object: each part is returned exactly when it is present
    ensures UnmarshalObject(body).Success? && AsObject(Get(UnmarshalObject(body).value, "data")).Some? ==>
              var data := AsObject(Get(UnmarshalObject(body).value, "data")).value;
              && r.resourceId == AsObject(Get(data, "resourceId"))
              && r.content == AsObject(Get(data, "content"))
              && (r.err.None? <==> r.resourceId.Some? && r.content.Some?)
              && (r.resourceId.None? && r.content.None? ==> r.err == Some(NoResourceIdAndContent))
              && (r.resourceId.Some? && r.content.None? ==> r.err == Some(NoContent))
              && (r.resourceId.None? && r.content.Some? ==> r.err == Some(NoResourceId))
  {
    match UnmarshalObject(body)
    case Failure(e) => Parts(None, None, Some(Undecodable(e)))
    case Success(top) =>
      match AsObject(Get(top, "data"))
      case None => Parts(None, None, None)
      case Some(data) =>
        var resourceId := AsObject(Get(data, "resourceId"));
        var content := AsObject(Get(data, "content"));
        if content.None? && resourceId.None? then Parts(None, None, Some(NoResourceIdAndContent))
        else if content.None? then Parts(resourceId, None, Some(NoContent))
        else if resourceId.None? then Parts(None, content, Some(NoResourceId))
        else Parts(resourceId, content, None)
  }

  /** The `href` of an optional object, as a nil map reads it. */
  function HrefIn(o: Option<Obj>): Json
  {
    if o.Some? then Get(o.value, "href") else JNull
  }

  /**
   * The href a new handle is built from: `content.href` unless that is nil, else
   * `resourceId.href`. Where the Go code's `.(string)` assertion would panic, an error.
   */
  function Href(parts: Parts): (r: Result<string, EnvelopeError>)
    ensures r.Success? <==> HrefIn(parts.content).JString? || (HrefIn(parts.content).JNull? && HrefIn(parts.resourceId).JString?)
    ensures HrefIn(parts.content).JString? ==> r == Success(HrefIn(parts.content).s)
    ensures HrefIn(parts.content).JNull? && HrefIn(parts.resourceId).JString? ==> r == Success(HrefIn(parts.resourceId).s)
    ensures HrefIn(parts.content).JNull? && HrefIn(parts.resourceId).JNull? ==> r == Failure(HrefMissing)
  {
    var fromContent := HrefIn(parts.content);
    if fromContent.JNull? then
      match HrefIn(parts.resourceId)
      case JString(h) => Success(h)
      case JNull => Failure(HrefMissing)
      case _ => Failure(HrefNotString)
    else if fromContent.JString? then Success(fromContent.s)
    else Failure(HrefNotString)
  }

  /** A Terraform string attribute: null and unknown read as "" through `ValueString()`. */
  datatype TfString = TfNull | TfUnknown | TfValue(s: string)
  {
    function ValueString(): string
    {
      if TfValue? then s else ""
    }
  }

  datatype Assigned = Assigned(handle: TfString, content: Option<Obj>)

  /**
   * What `SetResourceId` does to a (non-nil) handle and what it returns: the handle is
   * synthesised as `deviceName + href` only while it is still empty, and the content is
   * returned whether or not the handle was touched.
   */
  function AssignHandle(deviceName: string, current: TfString, body: Body): (r: Result<Assigned, EnvelopeError>)
    // it fails when the response has neither sub-object, or when an empty handle finds no href
    ensures r.Failure? <==>
              (ResourceIdAndContent(body).resourceId.None? && ResourceIdAndContent(body).content.None?)
              || (|current.ValueString()| == 0 && Href(ResourceIdAndContent(body)).Failure?)
    // on success the content is the response's, whatever happens to the handle
    ensures r.Success? ==> r.value.content == ResourceIdAndContent(body).content
    ensures r.Success? && |current.ValueString()| > 0 ==> r.value.handle == current
    ensures r.Success? && |current.ValueString()| == 0 ==>
              r.value.handle == TfValue(deviceName + Href(ResourceIdAndContent(body)).value)
  {
    var parts := ResourceIdAndContent(body);
    if parts.resourceId.None? && parts.content.None? then Failure(NoEnvelope(body.text))
    else if |current.ValueString()| > 0 then Success(Assigned(current, parts.content))
    else
      match Href(parts)
      case Failure(e) => Failure(e)
      case Success(h) => Success(Assigned(TfValue(deviceName + h), parts.content))
  }

  /** A response without either sub-object is an error, whatever the handle holds. */
  lemma NoEnvelopeIsError(deviceName: string, current: TfString, body: Body)
    requires ResourceIdAndContent(body).resourceId.None? && ResourceIdAndContent(body).content.None?
    ensures AssignHandle(deviceName, current, body) == Failure(NoEnvelope(body.text))
  {
  }

  /** A non-empty handle is never recomputed; the content is still returned. */
  lemma HandleKept(deviceName: string, current: TfString, body: Body)
    requires |current.ValueString()| > 0
    requires ResourceIdAndContent(body).resourceId.Some? || ResourceIdAndContent(body).content.Some?
    ensures AssignHandle(deviceName, current, body) == Success(Assigned(current, ResourceIdAndContent(body).content))
  {
  }

  /** An empty handle becomes the device name followed by the preferred href. */
  lemma HandleSynthesised(deviceName: string, current: TfString, body: Body)
    requires current.ValueString() == ""
    requires Href(ResourceIdAndContent(body)).Success?
    ensures var parts := ResourceIdAndContent(body);
            && AssignHandle(deviceName, current, body) == Success(Assigned(TfValue(deviceName + Href(parts).value), parts.content))
            && (HrefIn(parts.content).JString? ==> Href(parts).value == HrefIn(parts.content).s)
            && (HrefIn(parts.content).JNull? ==> Href(parts).value == HrefIn(parts.resourceId).s)
  {
    var parts := ResourceIdAndContent(body);
    assert parts.resourceId.Some? || parts.content.Some?;
  }

  /** With neither sub-object carrying an href, an empty handle cannot be synthesised. */
  lemma NoHrefIsError(deviceName: string, current: TfString, body: Body)
    requires current.ValueString() == ""
    requires HrefIn(ResourceIdAndContent(body).content).JNull? && HrefIn(ResourceIdAndContent(body).resourceId).JNull?
    ensures AssignHandle(deviceName, current, body).Failure?
  {
  }

  /** Assigning a handle twice changes nothing the second time: once set, a handle is stable. */
  lemma AssignHandleIdempotent(deviceName: string, current: TfString, body: Body)
    requires AssignHandle(deviceName, current, body).Success?
    ensures var a := AssignHandle(deviceName, current, body).value;
            AssignHandle(deviceName, a.handle, body) == Success(a)
  {
    var parts := ResourceIdAndContent(body);
    if |current.ValueString()| == 0 {
      // an empty name and an empty href give an empty handle: it is rebuilt, and identically
      var h := Href(parts).value;
      assert AssignHandle(deviceName, TfValue(deviceName + h), body) == Success(Assigned(TfValue(deviceName + h), parts.content));
    }
  }

  /** `after(value, a)`: the suffix of `value` from the first occurrence of `a`, or "". */
  function After(value: string, a: string): (r: string)
    ensures !Contains(value, a) ==> r == ""
    ensures Contains(value, a) ==> r == value[Index(value, a)..] && IsPrefix(a, r)
  {
    var pos := Index(value, a);
    if pos == -1 then "" else value[pos..]
  }

  /** For a non-empty separator, `after` gives "" exactly when the separator is absent. */
  lemma AfterEmptyIff(value: string, a: string)
    requires a != ""
    ensures After(value, a) == "" <==> !Contains(value, a)
  {
  }

  /**
   * A handle decomposes back into its href: when the device name has no '/' and the href
   * starts with one, `after(handle, "/")` is the href.
   */
  lemma HandleYieldsHref(deviceName: string, href: string)
    requires forall i :: 0 <= i < |deviceName| ==> deviceName[i] != '/'
    requires |href| > 0 && href[0] == '/'
    ensures After(deviceName + href, "/") == href
  {
    var handle := deviceName + href;
    assert OccursAt(handle, "/", |deviceName|);
    var pos := Index(handle, "/");
    forall k | 0 <= k < |deviceName|
      ensures !OccursAt(handle, "/", k)
    {
      assert handle[k..k + 1] == [deviceName[k]];
    }
    assert handle[|deviceName|..] == href;
  }

  /** The worked example: handle "dev1/ethernets/3" yields href "/ethernets/3". */
  lemma HandleExample()
    ensures After("dev1" + "/ethernets/3", "/") == "/ethernets/3"
  {
    HandleYieldsHref("dev1", "/ethernets/3");
  }

  /** `Find(what, where)`: the index of the first element whose value is `what`, or -1. */
  method Find(what: string, where: seq<TfString>) returns (idx: int)
    ensures idx == -1 <==> forall i :: 0 <= i < |where| ==> where[i].ValueString() != what
    ensures idx != -1 ==> 0 <= idx < |where| && where[idx].ValueString() == what
    ensures idx != -1 ==> forall i :: 0 <= i < idx ==> where[i].ValueString() != what
  {
    var i := 0;
    while i < |where|
      invariant 0 <= i <= |where|
      invariant forall j :: 0 <= j < i ==> where[j].ValueString() != what
    {
      if where[i].ValueString() == what {
        return i;
      }
      i := i + 1;
    }
    return -1;
  }

  /** A reference to a handle, the `*types.String` that `SetResourceId` writes through. */
  class HandleRef {
    var value: TfString

    constructor (v: TfString)
      ensures value == v
    {
      value := v;
    }
  }

  /**
   * `SetResourceId(deviceName, Id, body)`: writes the synthesised handle through `id`
   * (when it is non-nil and still empty) and returns the content.
   */
  method SetResourceId(deviceName: string, id: HandleRef?, body: Body) returns (c: Option<Obj>, err: Option<EnvelopeError>)
    modifies id
    ensures id != null ==>
              match AssignHandle(deviceName, old(id.value), body)
              case Success(a) => id.value == a.handle && c == a.content && err.None?
              case Failure(e) => id.value == old(id.value) && c.None? && err == Some(e)
    ensures id == null ==>
              var parts := ResourceIdAndContent(body);
              if parts.resourceId.None? && parts.content.None?
              then c.None? && err == Some(NoEnvelope(body.text))
              else c == parts.content && err.None?
  {
    var parts := ResourceIdAndContent(body);
    if parts.resourceId.None? && parts.content.None? {
      return None, Some(NoEnvelope(body.text));
    }
    if id != null && |id.value.ValueString()| == 0 {
      match Href(parts)
      case Failure(e) =>
        return None, Some(e);
      case Success(h) =>
        id.value := TfValue(deviceName + h);
    }
    return parts.content, None;
  }
}
