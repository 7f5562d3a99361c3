/** Message parts: conversion of tool input (internal/tool/tool_send.go) and rendering (internal/tool/helpers.go). */
module Content {
  import opened Prelude
  import opened Base64
  import opened A2A

  /** InputPart; `data` holds the marshalled JSON value. */
  datatype InputPart = InputPart(text: Option<string>, data: Option<string>, url: Option<string>, raw: Option<string>)

  datatype PartError = NoContent(index: nat) | MultipleContents(index: nat) | BadBase64(index: nat) | NoParts

  function One(present: bool): nat {
    if present then 1 else 0
  }

  function FieldCount(p: InputPart): nat {
    One(p.text.Some?) + One(p.data.Some?) + One(p.url.Some?) + One(p.raw.Some?)
  }

  /** `part` carries exactly what the one field of `p` says. */
  predicate Converts(p: InputPart, part: Part) {
    match part
    case Text(t) => p == InputPart(Some(t), None, None, None)
    case Data(d) => p == InputPart(None, Some(d), None, None)
    case Url(u) => p == InputPart(None, None, Some(u), None)
    case Raw(b) => p.raw.Some? && Decode(p.raw.value) == Some(b) && p == InputPart(None, None, None, p.raw)
    case Unsupported => false
  }

  predicate WellFormed(p: InputPart) {
    FieldCount(p) == 1 && (p.raw.Some? ==> Decode(p.raw.value).Some?)
  }

  predicate AllWellFormed(ps: seq<InputPart>) {
    forall p <- ps :: WellFormed(p)
  }

  /** What is wrong with the part at `index`. */
  predicate Describes(error: PartError, p: InputPart, index: nat) {
    match error
    case NoContent(i) => i == index && FieldCount(p) == 0
    case MultipleContents(i) => i == index && FieldCount(p) > 1
    case BadBase64(i) => i == index && FieldCount(p) == 1 && p.raw.Some? && Decode(p.raw.value) == None
    case NoParts => false
  }

  /** Either every part is converted, index by index, or the first bad part is reported. */
  ghost predicate ConversionOf(parts: seq<InputPart>, r: Result<seq<Part>, PartError>) {
    match r
    case Ok(out) => parts != [] && |out| == |parts| && forall i | 0 <= i < |parts| :: Converts(parts[i], out[i])
    case Err(NoParts) => parts == []
    case Err(error) => exists i :: 0 <= i < |parts| && AllWellFormed(parts[..i]) && Describes(error, parts[i], i)
  }

  method ConvertInputParts(parts: seq<InputPart>) returns (r: Result<seq<Part>, PartError>)
    ensures ConversionOf(parts, r)
  {
    hide Decode;
    var out: seq<Part> := [];
    for i := 0 to |parts|
      invariant |out| == i
      invariant forall j | 0 <= j < i :: Converts(parts[j], out[j]) && WellFormed(parts[j])
    {
      var p := parts[i];
      assert AllWellFormed(parts[..i]);
      var count := 0;
      if p.text.Some? { count := count + 1; }
      if p.data.Some? { count := count + 1; }
      if p.url.Some? { count := count + 1; }
      if p.raw.Some? { count := count + 1; }
      if count == 0 {
        return Err(NoContent(i));
      }
      if count > 1 {
        return Err(MultipleContents(i));
      }
      if p.text.Some? {
        out := out + [Text(p.text.value)];
      } else if p.data.Some? {
        out := out + [Data(p.data.value)];
      } else if p.url.Some? {
        out := out + [Url(p.url.value)];
      } else {
        var decoded := Decode(p.raw.value);
        if decoded.None? {
          return Err(BadBase64(i));
        }
        out := out + [Raw(decoded.value)];
      }
    }
    if out == [] {
      return Err(NoParts);
    }
    return Ok(out);
  }

  lemma ConvertsIsFunctional(p: InputPart, a: Part, b: Part)
    requires Converts(p, a) && Converts(p, b)
    ensures a == b
  {
    hide Decode;
  }

  lemma ConvertedIsWellFormed(p: InputPart, part: Part)
    requires Converts(p, part)
    ensures WellFormed(p)
  {
    hide Decode;
  }

  lemma DescribedIsNotWellFormed(error: PartError, p: InputPart, index: nat)
    requires Describes(error, p, index)
    ensures !WellFormed(p)
  {
    hide Decode;
  }

  lemma BadIsNotInGoodPrefix(parts: seq<InputPart>, bad: nat, good: nat)
    requires bad < |parts| && good < |parts| && !WellFormed(parts[bad]) && AllWellFormed(parts[..good])
    ensures good <= bad
  {
    hide WellFormed;
    assert forall k | 0 <= k < good :: parts[..good][k] == parts[k] && parts[..good][k] in parts[..good];
  }

  /** Conversion succeeds exactly on non-empty lists of well-formed parts, and its outcome is unique:
      two results for one input agree, so the reported index is the least bad one. */
  lemma ConversionIsDetermined(parts: seq<InputPart>, r: Result<seq<Part>, PartError>, r': Result<seq<Part>, PartError>)
    requires ConversionOf(parts, r) && ConversionOf(parts, r')
    ensures r.Ok? <==> parts != [] && AllWellFormed(parts)
    ensures r == r'
  {
    hide Decode, Converts, WellFormed, Describes;
    SuccessIffWellFormed(parts, r);
    SuccessIffWellFormed(parts, r');
    if r.Ok? {
      forall i | 0 <= i < |parts| ensures r.value[i] == r'.value[i] {
        ConvertsIsFunctional(parts[i], r.value[i], r'.value[i]);
      }
      assert r.value == r'.value;
    } else if parts != [] {
      var i :| 0 <= i < |parts| && AllWellFormed(parts[..i]) && Describes(r.error, parts[i], i);
      var j :| 0 <= j < |parts| && AllWellFormed(parts[..j]) && Describes(r'.error, parts[j], j);
      DescribedIsNotWellFormed(r.error, parts[i], i);
      DescribedIsNotWellFormed(r'.error, parts[j], j);
      BadIsNotInGoodPrefix(parts, i, j);
      BadIsNotInGoodPrefix(parts, j, i);
      DescriptionIsUnique(r.error, r'.error, parts[i], i);
    }
  }

  lemma SuccessIffWellFormed(parts: seq<InputPart>, r: Result<seq<Part>, PartError>)
    requires ConversionOf(parts, r)
    ensures r.Ok? <==> parts != [] && AllWellFormed(parts)
  {
    hide Decode, Converts, WellFormed, Describes;
    if r.Ok? {
      forall p <- parts ensures WellFormed(p) {
        var i :| 0 <= i < |parts| && parts[i] == p;
        ConvertedIsWellFormed(p, r.value[i]);
      }
    } else if r.error != NoParts {
      var i :| 0 <= i < |parts| && AllWellFormed(parts[..i]) && Describes(r.error, parts[i], i);
      DescribedIsNotWellFormed(r.error, parts[i], i);
      assert parts[i] in parts;
    }
  }

  lemma DescriptionIsUnique(e: PartError, e': PartError, p: InputPart, index: nat)
    requires Describes(e, p, index) && Describes(e', p, index)
    ensures e == e'
  {
    hide Decode;
  }

  /** renderPart: the text of a part, or None when there is nothing to show. */
  function RenderPart(part: Option<Part>): Option<string> {
    match part
    case None => None
    case Some(Text(t)) => Some(t)
    case Some(Data(json)) => Some(json)
    case Some(Url(u)) => Some(u)
    case Some(Raw(b)) => Some(Encode(b))
    case Some(Unsupported) => None
  }

  /** Binary content shown by the gateway can be sent back: converting the rendering of any bytes gives the same
      bytes. */
  lemma RawPartRoundTrip(b: seq<byte>, r: Result<seq<Part>, PartError>)
    requires ConversionOf([InputPart(None, None, None, RenderPart(Some(Raw(b))))], r)
    ensures r == Ok([Raw(b)])
  {
    RoundTrip(b);
    hide Decode, Encode;
    var p := InputPart(None, None, None, RenderPart(Some(Raw(b))));
    var expected: Result<seq<Part>, PartError> := Ok([Raw(b)]);
    assert Converts(p, Raw(b));
    ConversionIsDetermined([p], r, expected);
  }

  /** A part made of tool input shows that input: its kind is that of the field that was set, text, data and URL come
      back as they are, and binary content as an encoding of the same bytes. */
  lemma RenderingShowsInput(p: InputPart, part: Part)
    requires Converts(p, part)
    ensures (part.Text? <==> p.text.Some?) && (part.Data? <==> p.data.Some?)
    ensures (part.Url? <==> p.url.Some?) && (part.Raw? <==> p.raw.Some?)
    ensures part.Text? ==> RenderPart(Some(part)) == p.text
    ensures part.Data? ==> RenderPart(Some(part)) == p.data
    ensures part.Url? ==> RenderPart(Some(part)) == p.url
    ensures part.Raw? ==>
              && RenderPart(Some(part)).Some?
              && Decode(RenderPart(Some(part)).value) == Decode(p.raw.value) == Some(part.bytes)
  {
    hide Decode, Encode;
    if part.Raw? {
      RoundTrip(part.bytes);
    }
  }

  /** A part is shown exactly when a caller could have sent it. */
  lemma ShownIffSendable(part: Option<Part>)
    ensures RenderPart(part).Some? <==> part.Some? && exists p :: Converts(p, part.value)
  {
    hide Decode, Encode;
    if part.Some? {
      match part.value {
        case Text(t) => assert Converts(InputPart(Some(t), None, None, None), part.value);
        case Data(d) => assert Converts(InputPart(None, Some(d), None, None), part.value);
        case Url(u) => assert Converts(InputPart(None, None, Some(u), None), part.value);
        case Raw(b) =>
          RoundTrip(b);
          assert Converts(InputPart(None, None, None, Some(Encode(b))), part.value);
        case Unsupported =>
      }
    }
  }

  ghost predicate CanConvert(p: InputPart) {
    exists part :: Converts(p, part)
  }

  /** The error names the first bad part and what is wrong with it: no field, more than one, or text that is no
      base64. */
  lemma BadPartIsNamed(parts: seq<InputPart>, error: PartError)
    requires ConversionOf(parts, Err(error)) && parts != []
    ensures error != NoParts && error.index < |parts|
    ensures var p := parts[error.index];
            && (error.NoContent? ==> p == InputPart(None, None, None, None))
            && (error.MultipleContents? ==>
                  || (p.text.Some? && (p.data.Some? || p.url.Some? || p.raw.Some?))
                  || (p.data.Some? && (p.url.Some? || p.raw.Some?)) || (p.url.Some? && p.raw.Some?))
            && (error.BadBase64? ==>
                  p.raw.Some? && p == InputPart(None, None, None, p.raw) && Decode(p.raw.value) == None)
    ensures forall i | 0 <= i < error.index :: CanConvert(parts[i])
  {
    hide Decode;
    var k :| 0 <= k < |parts| && AllWellFormed(parts[..k]) && Describes(error, parts[k], k);
    assert error != NoParts && error.index == k;
    forall i | 0 <= i < k ensures CanConvert(parts[i]) {
      assert parts[..k][i] == parts[i] && parts[i] in parts[..k];
      WellFormedConverts(parts[i]);
    }
  }

  lemma WellFormedConverts(p: InputPart)
    requires WellFormed(p)
    ensures CanConvert(p)
  {
    hide Decode;
    if p.text.Some? {
      assert Converts(p, Text(p.text.value));
    } else if p.data.Some? {
      assert Converts(p, Data(p.data.value));
    } else if p.url.Some? {
      assert Converts(p, Url(p.url.value));
    } else {
      assert Converts(p, Raw(Decode(p.raw.value).value));
    }
  }

  /** Renderings of the parts, nothing between them; nil and unsupported parts are skipped. */
  function PartsText(parts: Parts): string {
    if parts == [] then ""
    else
      match RenderPart(parts[0])
      case None => PartsText(parts[1..])
      case Some(text) => text + PartsText(parts[1..])
  }

  /** The text of a message is put together part by part, in order, and a part that is not shown adds nothing. */
  lemma {:induction false} PartsTextConcat(x: Parts, y: Parts)
    ensures PartsText(x + y) == PartsText(x) + PartsText(y)
  {
    hide RenderPart;
    if x == [] {
      assert x + y == y;
    } else {
      assert (x + y)[1..] == x[1..] + y;
      PartsTextConcat(x[1..], y);
    }
  }

  lemma PartsTextOfOne(part: Option<Part>)
    ensures PartsText([part]) == if RenderPart(part).Some? then RenderPart(part).value else ""
  {
    hide RenderPart;
    assert PartsText([part][1..]) == "";
  }

  /** The append loop of extractStatusMessageText and extractContentFromMessageParts. */
  method ExtractPartsText(parts: Parts) returns (texts: string)
    ensures texts == PartsText(parts)
  {
    hide Encode;
    texts := "";
    for i := 0 to |parts|
      invariant texts + PartsText(parts[i..]) == PartsText(parts)
    {
      var rendered := RenderPart(parts[i]);
      assert parts[i..][0] == parts[i] && parts[i..][1..] == parts[i + 1..];
      if rendered.Some? {
        texts := texts + rendered.value;
      }
    }
  }
}
