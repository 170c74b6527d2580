/** Redaction primitives: whether an error message may be echoing a supplied value, in raw
    form or in one of its encoded renderings.

    Text is its UTF-8 bytes.  How JSON escapes one byte inside a string literal is a
    parameter, `jsonByte`; JSON escapes the bytes of a string independently. */
module Redact {
  import opened Wrappers
  import opened Models

  datatype UrlEncoding = Rfc3986 | Form
  datatype HexCase = Upper | Lower

  predicate IsAlphanumeric(b: byte) {
    0x30 <= b <= 0x39 || 0x41 <= b <= 0x5A || 0x61 <= b <= 0x7A
  }

  /** `-._~` for RFC 3986 (section 2.3), `*-._` for form encoding. */
  predicate IsSafeMark(b: byte, encoding: UrlEncoding) {
    match encoding
    case Rfc3986 => b == 0x2D || b == 0x2E || b == 0x5F || b == 0x7E
    case Form => b == 0x2A || b == 0x2D || b == 0x2E || b == 0x5F
  }

  type Nibble = n: int | 0 <= n < 16

  function HexDigit(n: Nibble, hexCase: HexCase): byte {
    if n < 10 then 0x30 + n else if hexCase.Upper? then 0x41 + n - 10 else 0x61 + n - 10
  }

  function EncodeByte(b: byte, encoding: UrlEncoding, hexCase: HexCase): Bytes {
    if IsAlphanumeric(b) || IsSafeMark(b, encoding) then [b]
    else if b == 0x20 && encoding.Form? then [0x2B]
    else [0x25, HexDigit(b / 16, hexCase), HexDigit(b % 16, hexCase)]
  }

  /** Renders every byte on its own and joins the results. */
  function Render(value: Bytes, renderByte: byte -> Bytes): Bytes {
    if value == [] then [] else renderByte(value[0]) + Render(value[1..], renderByte)
  }

  function UrlRender(encoding: UrlEncoding, hexCase: HexCase): byte -> Bytes {
    b => EncodeByte(b, encoding, hexCase)
  }

  lemma {:induction false} RenderAppend(a: Bytes, b: Bytes, renderByte: byte -> Bytes)
    ensures Render(a + b, renderByte) == Render(a, renderByte) + Render(b, renderByte)
    decreases |a|
  {
    if a == [] {
      assert a + b == b;
    } else {
      assert (a + b)[1..] == a[1..] + b;
      RenderAppend(a[1..], b, renderByte);
      assert renderByte(a[0]) + (Render(a[1..], renderByte) + Render(b, renderByte))
          == renderByte(a[0]) + Render(a[1..], renderByte) + Render(b, renderByte);
    }
  }

  method UrlEncode(value: Bytes, encoding: UrlEncoding, hexCase: HexCase) returns (out: Bytes)
    ensures out == Render(value, UrlRender(encoding, hexCase))
    ensures Decode(out, encoding) == Some(value)
  {
    ghost var render := UrlRender(encoding, hexCase);
    out := [];
    for i := 0 to |value|
      invariant out == Render(value[..i], render)
    {
      var b := value[i];
      RenderAppend(value[..i], [b], render);
      assert value[..i + 1] == value[..i] + [b];
      assert Render([b], render) == EncodeByte(b, encoding, hexCase);
      if IsAlphanumeric(b) || IsSafeMark(b, encoding) {
        out := out + [b];
      } else if b == 0x20 && encoding.Form? {
        out := out + [0x2B];
      } else {
        out := out + [0x25];
        out := out + [HexDigit(b / 16, hexCase)];
        out := out + [HexDigit(b % 16, hexCase)];
        assert out == Render(value[..i], render) + [0x25, HexDigit(b / 16, hexCase), HexDigit(b % 16, hexCase)];
      }
    }
    assert value[..|value|] == value;
    EncodingIsUndone(value, encoding, hexCase);
  }

  // -------------------------------------------------------------- decoders

  function HexValue(b: byte): Option<Nibble> {
    if 0x30 <= b <= 0x39 then Some(b - 0x30)
    else if 0x41 <= b <= 0x46 then Some(b - 0x41 + 10)
    else if 0x61 <= b <= 0x66 then Some(b - 0x61 + 10)
    else None
  }

  /** Percent-decoding (RFC 3986 section 2.1: either hex case), with `+` for a space in form
      encoding.  None when a `%` is not followed by two hex digits. */
  function Decode(text: Bytes, encoding: UrlEncoding): Option<Bytes>
    decreases |text|
  {
    if text == [] then Some([])
    else if text[0] == 0x25 then
      if |text| < 3 || HexValue(text[1]).None? || HexValue(text[2]).None? then None
      else Cons(16 * HexValue(text[1]).value + HexValue(text[2]).value, Decode(text[3..], encoding))
    else Cons(if text[0] == 0x2B && encoding.Form? then 0x20 else text[0], Decode(text[1..], encoding))
  }

  predicate IsLower(b: byte) { 'a' <= b as char <= 'z' }
  predicate IsUpper(b: byte) { 'A' <= b as char <= 'Z' }

  /** The characters that stay as they are: letters, digits and the marks of the standard. */
  predicate StaysLiteral(c: char, encoding: UrlEncoding) {
    || '0' <= c <= '9' || 'A' <= c <= 'Z' || 'a' <= c <= 'z'
    || (if encoding.Rfc3986? then c in "-._~" else c in "*-._")
  }

  /** How a byte is rendered: literally, as `+` for a space in form encoding, or as `%` and its
      two hex digits, high one first, in the case that was asked for. */
  lemma EncodeByteExact(b: byte, encoding: UrlEncoding, hexCase: HexCase)
    ensures var code := EncodeByte(b, encoding, hexCase);
            if StaysLiteral(b as char, encoding) then code == [b]
            else if b as char == ' ' && encoding.Form? then code == ['+' as int]
            else
              && |code| == 3 && code[0] == '%' as int
              && HexValue(code[1]) == Some(b / 16) && HexValue(code[2]) == Some(b % 16)
              && forall i :: 1 <= i < 3 ==> if hexCase.Upper? then !IsLower(code[i]) else !IsUpper(code[i])
  {
  }

  function Cons(b: byte, rest: Option<Bytes>): Option<Bytes> {
    if rest.Some? then Some([b] + rest.value) else None
  }

  lemma {:induction false} DecodeOneByte(b: byte, encoding: UrlEncoding, hexCase: HexCase, rest: Bytes)
    ensures Decode(EncodeByte(b, encoding, hexCase) + rest, encoding) == Cons(b, Decode(rest, encoding))
  {
    var code := EncodeByte(b, encoding, hexCase);
    assert (code + rest)[|code|..] == rest;
    assert (code + rest)[0] == code[0];
  }

  /** Both encoders, in both hex cases, are undone by their decoder on every byte string. */
  lemma {:induction false} EncodingIsUndone(value: Bytes, encoding: UrlEncoding, hexCase: HexCase)
    ensures Decode(Render(value, UrlRender(encoding, hexCase)), encoding) == Some(value)
  {
    if value == [] {
    } else {
      EncodingIsUndone(value[1..], encoding, hexCase);
      DecodeOneByte(value[0], encoding, hexCase, Render(value[1..], UrlRender(encoding, hexCase)));
      assert value == [value[0]] + value[1..];
    }
  }

  /** Hence different values never share a rendering. */
  lemma {:induction false} EncodingIsInjective(a: Bytes, b: Bytes, encoding: UrlEncoding, hexCase: HexCase)
    ensures Render(a, UrlRender(encoding, hexCase)) == Render(b, UrlRender(encoding, hexCase)) <==> a == b
  {
    EncodingIsUndone(a, encoding, hexCase);
    EncodingIsUndone(b, encoding, hexCase);
  }

  // ---------------------------------------------------- echo detection

  predicate ContainsAt(message: Bytes, part: Bytes, at: nat) {
    at + |part| <= |message| && message[at..at + |part|] == part
  }

  ghost predicate Contains(message: Bytes, part: Bytes) {
    exists at: nat :: ContainsAt(message, part, at)
  }

  method FindSubstring(message: Bytes, part: Bytes) returns (found: bool)
    ensures found <==> Contains(message, part)
  {
    var at := 0;
    while at + |part| <= |message|
      invariant forall k: nat :: k < at ==> !ContainsAt(message, part, k)
      decreases |message| - at
    {
      if message[at..at + |part|] == part {
        assert ContainsAt(message, part, at);
        return true;
      }
      at := at + 1;
    }
    return false;
  }

  /** The ways a value may be rendered inside a larger text. */
  datatype Rendering = Raw | JsonEscaped | Url(encoding: UrlEncoding, hexCase: HexCase) {
    function Byte(jsonByte: byte -> Bytes): byte -> Bytes {
      match this
      case Raw => b => [b]
      case JsonEscaped => jsonByte
      case Url(encoding, hexCase) => UrlRender(encoding, hexCase)
    }
  }

  lemma {:induction false} RawIsIdentity(value: Bytes, jsonByte: byte -> Bytes)
    ensures Render(value, Raw.Byte(jsonByte)) == value
  {
    if value != [] {
      RawIsIdentity(value[1..], jsonByte);
      assert value == [value[0]] + value[1..];
    }
  }

  method RenderLoop(value: Bytes, renderByte: byte -> Bytes) returns (out: Bytes)
    ensures out == Render(value, renderByte)
  {
    out := [];
    for i := 0 to |value|
      invariant out == Render(value[..i], renderByte)
    {
      RenderAppend(value[..i], [value[i]], renderByte);
      assert value[..i + 1] == value[..i] + [value[i]];
      assert Render([value[i]], renderByte) == renderByte(value[i]);
      out := out + renderByte(value[i]);
    }
    assert value[..|value|] == value;
  }

  function Rendered(value: Bytes, r: Rendering, jsonByte: byte -> Bytes): Bytes {
    Render(value, r.Byte(jsonByte))
  }

  /** Appends each non-empty candidate that is not yet listed. */
  method AddNew(first: Bytes, candidates: seq<Bytes>) returns (variants: seq<Bytes>)
    ensures variants != [] && variants[0] == first
    ensures forall i, j :: 0 <= i < j < |variants| ==> variants[i] != variants[j]
    ensures forall v :: v in variants ==> v == first || (v != [] && v in candidates)
    ensures forall v :: v in candidates && v != [] ==> v in variants
  {
    variants := [first];
    for i := 0 to |candidates|
      invariant variants != [] && variants[0] == first
      invariant forall i, j :: 0 <= i < j < |variants| ==> variants[i] != variants[j]
      invariant forall v :: v in variants ==> v == first || (v != [] && v in candidates)
      invariant forall j :: 0 <= j < i ==> candidates[j] == [] || candidates[j] in variants
    {
      if candidates[i] != [] && candidates[i] !in variants {
        variants := variants + [candidates[i]];
      }
    }
  }

  /** The raw value first, then every other non-empty rendering, none listed twice. */
  method EncodedVariants(value: Bytes, jsonByte: byte -> Bytes) returns (variants: seq<Bytes>)
    ensures variants != [] && variants[0] == value
    ensures forall i, j :: 0 <= i < j < |variants| ==> variants[i] != variants[j]
    ensures forall v :: v in variants ==> v == value || v != []
    ensures forall v :: v in variants ==> exists r: Rendering :: v == Rendered(value, r, jsonByte)
    ensures forall r: Rendering :: Rendered(value, r, jsonByte) == [] || Rendered(value, r, jsonByte) in variants
  {
    var json := RenderLoop(value, jsonByte);
    var rfcUpper := UrlEncode(value, Rfc3986, Upper);
    var rfcLower := UrlEncode(value, Rfc3986, Lower);
    var formUpper := UrlEncode(value, Form, Upper);
    var formLower := UrlEncode(value, Form, Lower);
    var candidates := [json, rfcUpper, rfcLower, formUpper, formLower];
    variants := AddNew(value, candidates);
    RawIsIdentity(value, jsonByte);
    assert value == Rendered(value, Raw, jsonByte);
    assert candidates[0] == Rendered(value, JsonEscaped, jsonByte);
    assert candidates[1] == Rendered(value, Url(Rfc3986, Upper), jsonByte);
    assert candidates[2] == Rendered(value, Url(Rfc3986, Lower), jsonByte);
    assert candidates[3] == Rendered(value, Url(Form, Upper), jsonByte);
    assert candidates[4] == Rendered(value, Url(Form, Lower), jsonByte);
    CandidatesAreRenderings(value, candidates, jsonByte);
  }

  lemma CandidatesAreRenderings(value: Bytes, candidates: seq<Bytes>, jsonByte: byte -> Bytes)
    requires |candidates| == 5 && candidates[0] == Rendered(value, JsonEscaped, jsonByte)
    requires candidates[1] == Rendered(value, Url(Rfc3986, Upper), jsonByte)
             && candidates[2] == Rendered(value, Url(Rfc3986, Lower), jsonByte)
    requires candidates[3] == Rendered(value, Url(Form, Upper), jsonByte)
             && candidates[4] == Rendered(value, Url(Form, Lower), jsonByte)
    ensures forall v :: v in candidates ==> exists r: Rendering :: v == Rendered(value, r, jsonByte)
    ensures forall r: Rendering :: !r.Raw? ==> Rendered(value, r, jsonByte) in candidates
  {
    forall r: Rendering | !r.Raw? ensures Rendered(value, r, jsonByte) in candidates {
      if r.Url? {
        assert r.encoding.Rfc3986? || r.encoding.Form?;
        assert r.hexCase.Upper? || r.hexCase.Lower?;
      }
    }
  }

  /** The message shows the value in one of its renderings. */
  ghost predicate Shows(message: Bytes, value: Bytes, jsonByte: byte -> Bytes) {
    exists r: Rendering :: Rendered(value, r, jsonByte) != [] && Contains(message, Rendered(value, r, jsonByte))
  }

  /** A non-empty value is shown. */
  ghost predicate Echoed(message: Bytes, value: Bytes, jsonByte: byte -> Bytes) {
    value != [] && Shows(message, value, jsonByte)
  }

  method ValueEchoed(message: Bytes, value: Bytes, jsonByte: byte -> Bytes) returns (echoed: bool)
    ensures echoed <==> Echoed(message, value, jsonByte)
  {
    if value == [] {
      return false;
    }
    var variants := EncodedVariants(value, jsonByte);
    for i := 0 to |variants|
      invariant forall j :: 0 <= j < i ==> !Contains(message, variants[j])
    {
      var found := FindSubstring(message, variants[i]);
      if found {
        assert variants[i] in variants;
        return true;
      }
    }
    return false;
  }

  lemma SliceOfSlice(s: Bytes, i: nat, n: nat, j: nat, m: nat)
    requires i + n <= |s| && j + m <= n
    ensures s[i..i + n][j..j + m] == s[i + j..i + j + m]
  {
    var a, b := s[i..i + n][j..j + m], s[i + j..i + j + m];
    forall k | 0 <= k < m ensures a[k] == b[k] {
      assert a[k] == s[i..i + n][j + k] == s[i + j + k];
    }
  }

  lemma ContainsTrans(message: Bytes, middle: Bytes, part: Bytes)
    requires Contains(message, middle) && Contains(middle, part)
    ensures Contains(message, part)
  {
    var i: nat :| ContainsAt(message, middle, i);
    var j: nat :| ContainsAt(middle, part, j);
    SliceOfSlice(message, i, |middle|, j, |part|);
    assert ContainsAt(message, part, i + j);
  }

  /** No encoded echo slips past: a message holding any rendering of any payload that
      contains the value shows the value. */
  lemma PayloadShowsValue(message: Bytes, before: Bytes, value: Bytes, after: Bytes,
                          r: Rendering, jsonByte: byte -> Bytes)
    requires Rendered(value, r, jsonByte) != []
    requires Contains(message, Rendered(before + value + after, r, jsonByte))
    ensures Shows(message, value, jsonByte)
  {
    var f := r.Byte(jsonByte);
    RenderAppend(before + value, after, f);
    RenderAppend(before, value, f);
    var whole := Render(before + value + after, f);
    var at := |Render(before, f)|;
    assert whole[at..at + |Render(value, f)|] == Render(value, f);
    assert ContainsAt(whole, Render(value, f), at);
    ContainsTrans(message, whole, Render(value, f));
  }

  lemma {:induction false} UrlRenderingNonEmpty(value: Bytes, encoding: UrlEncoding, hexCase: HexCase)
    requires value != []
    ensures Render(value, UrlRender(encoding, hexCase)) != []
  {
    EncodingIsUndone(value, encoding, hexCase);
  }

  /** `value_echoed` is true of every message that holds a URL encoding, in either standard and
      hex case, of any text with the non-empty value in it. */
  lemma {:induction false} EncodedPayloadIsEchoed(message: Bytes, before: Bytes, value: Bytes, after: Bytes,
                                                  encoding: UrlEncoding, hexCase: HexCase, jsonByte: byte -> Bytes)
    requires value != []
    requires Contains(message, Render(before + value + after, UrlRender(encoding, hexCase)))
    ensures Echoed(message, value, jsonByte)
  {
    UrlRenderingNonEmpty(value, encoding, hexCase);
    PayloadShowsValue(message, before, value, after, Url(encoding, hexCase), jsonByte);
  }

  /** The same of a text in which the value stands as it is. */
  lemma PlainPayloadIsEchoed(before: Bytes, value: Bytes, after: Bytes, jsonByte: byte -> Bytes)
    requires value != []
    ensures Echoed(before + value + after, value, jsonByte)
  {
    var message := before + value + after;
    RawIsIdentity(value, jsonByte);
    RawIsIdentity(message, jsonByte);
    assert message == message[0..0 + |message|];
    assert ContainsAt(message, message, 0);
    PayloadShowsValue(message, before, value, after, Raw, jsonByte);
  }
}
