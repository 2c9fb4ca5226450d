/**
 The XML-RPC value codec: the writer `encodeValue` and the recursive reader
 `decodeValue` / `decodeValueContent` / `decodeArray` / `decodeStruct`, over the
 token stream of an XML tokenizer. The tokenizer itself, its escaping and base64
 are library code: a stream is a sequence of tokens that ends where the tokenizer
 would report an error or the end of input, and base64 is a pair of functions.
 */
module XmlRpc {
  import opened Wrappers
  import opened Sorting
  import opened Text
  import opened Numbers

  datatype Token = Start(name: string) | End(name: string) | Chars(text: string) | Misc

  type Stream = seq<Token>

  datatype Value =
    | Nil
    | Str(s: string)
    | Bool(b: bool)
    | Num(n: int)            // int, int32, int64, or a float64 with an integral value
    | Double(text: string)   // any other float64, by its %g rendering
    | Bytes(data: seq<bv8>)
    | Arr(items: seq<Value>)
    | Struct(fields: map<string, Value>)

  datatype Error = UnexpectedEnd | BadInteger | BadBase64

  datatype Base64 = Base64(enc: seq<bv8> -> string, dec: string -> Option<seq<bv8>>)
  {
    /** The library pair is an inverse, also through the TrimSpace of the reader. */
    ghost predicate Faithful() {
      forall d :: dec(TrimSpace(enc(d))) == Some(d)
    }
  }

  type Decoded = Result<(Value, Stream), Error>

  // ---- Reading -------------------------------------------------------------

  /** `DecodeElement` into a string: the element's own text up to its end tag. */
  function ReadText(ts: Stream, depth: nat, acc: string): (r: Result<(string, Stream), Error>)
    ensures r.Ok? ==> |r.value.1| < |ts|
  {
    if ts == [] then Err(UnexpectedEnd)
    else
      match ts[0]
      case Start(_) => ReadText(ts[1..], depth + 1, acc)
      case End(_) => if depth == 0 then Ok((acc, ts[1..])) else ReadText(ts[1..], depth - 1, acc)
      case Chars(t) => ReadText(ts[1..], depth, if depth == 0 then acc + t else acc)
      case Misc => ReadText(ts[1..], depth, acc)
  }

  predicate IsIntTag(name: string) { name == "int" || name == "i4" || name == "i8" }

  /** The reader's switch on the start tag found inside a value. */
  function Element(c: Base64, name: string, ts: Stream): (r: Decoded)
    ensures r.Ok? ==> |r.value.1| <= |ts|
    decreases |ts|, 2
  {
    if name == "array" then ReadArray(c, ts, [])
    else if name == "struct" then ReadStruct(c, ts, "", map[])
    else
      match ReadText(ts, 0, "")
      case Err(e) =>
        if name == "string" || IsIntTag(name) || name == "boolean" || name == "base64" then Err(e)
        else Ok((Str(""), []))
      case Ok((raw, rest)) =>
        if IsIntTag(name) then
          match ParseInt(TrimSpace(raw))
          case None => Err(BadInteger)
          case Some(n) => Ok((Num(Float64(n)), rest))
        else if name == "boolean" then Ok((Bool(raw == "1" || Lower(raw) == "true"), rest))
        else if name == "base64" then
          match c.dec(TrimSpace(raw))
          case None => Err(BadBase64)
          case Some(d) => Ok((Bytes(d), rest))
        else Ok((Str(raw), rest))
  }

  /** `decodeValueContent`: the inside of a value element, after its start tag. */
  function ReadContent(c: Base64, ts: Stream): (r: Decoded)
    ensures r.Ok? ==> |r.value.1| < |ts|
    decreases |ts|, 0
  {
    if ts == [] then Err(UnexpectedEnd)
    else
      match ts[0]
      case Chars(t) =>
        if TrimSpace(t) != "" then Ok((Str(TrimSpace(t)), ts[1..])) else ReadContent(c, ts[1..])
      case Start(name) => Element(c, name, ts[1..])
      case End(name) => if name == "value" then Ok((Str(""), ts[1..])) else ReadContent(c, ts[1..])
      case Misc => ReadContent(c, ts[1..])
  }

  /** `decodeArray`, with the items read so far. */
  function ReadArray(c: Base64, ts: Stream, acc: seq<Value>): (r: Decoded)
    ensures r.Ok? ==> |r.value.1| < |ts|
    decreases |ts|, 1
  {
    if ts == [] then Err(UnexpectedEnd)
    else if ts[0] == Start("value") then
      match ReadContent(c, ts[1..])
      case Err(e) => Err(e)
      case Ok((item, rest)) => ReadArray(c, rest, acc + [item])
    else if ts[0] == End("array") then Ok((Arr(acc), ts[1..]))
    else ReadArray(c, ts[1..], acc)
  }

  /** `decodeStruct`, with the pending member name and the members read so far. */
  function ReadStruct(c: Base64, ts: Stream, name: string, acc: map<string, Value>): (r: Decoded)
    ensures r.Ok? ==> |r.value.1| < |ts|
    decreases |ts|, 1
  {
    if ts == [] then Err(UnexpectedEnd)
    else if ts[0] == Start("name") then
      match ReadText(ts[1..], 0, "")
      case Err(e) => Err(e)
      case Ok((s, rest)) => ReadStruct(c, rest, s, acc)
    else if ts[0] == Start("value") then
      match ReadContent(c, ts[1..])
      case Err(e) => Err(e)
      case Ok((v, rest)) =>
        if name != "" then ReadStruct(c, rest, "", acc[name := v]) else ReadStruct(c, rest, name, acc)
    else if ts[0] == End("struct") then Ok((Struct(acc), ts[1..]))
    else ReadStruct(c, ts[1..], name, acc)
  }

  /** `decodeValue`: skips to the next start tag. */
  function ReadValue(c: Base64, ts: Stream): (r: Decoded)
    ensures r.Ok? ==> |r.value.1| < |ts|
    decreases |ts|, 3
  {
    if ts == [] then Err(UnexpectedEnd)
    else if !ts[0].Start? then ReadValue(c, ts[1..])
    else if ts[0].name == "value" then ReadContent(c, ts[1..])
    else Element(c, ts[0].name, ts[1..])
  }

  /** The shared `xml.Decoder`: what is left of the stream. */
  class XmlDecoder {
    var rest: Stream
    const codec: Base64

    constructor (codec: Base64, ts: Stream)
      ensures this.codec == codec && rest == ts
    {
      this.codec := codec;
      rest := ts;
    }

    method NextToken() returns (t: Option<Token>)
      modifies this
      ensures old(rest) == [] ==> t == None && rest == []
      ensures old(rest) != [] ==> t == Some(old(rest)[0]) && rest == old(rest)[1..]
    {
      if rest == [] {
        t := None;
      } else {
        t := Some(rest[0]);
        rest := rest[1..];
      }
    }

    method DecodeElement() returns (r: Result<string, Error>)
      modifies this
      ensures r.Ok? ==> ReadText(old(rest), 0, "") == Ok((r.value, rest))
      ensures r.Err? ==> ReadText(old(rest), 0, "") == Err(r.error) && rest == []
    {
      var depth: nat, acc: string := 0, "";
      while true
        invariant ReadText(rest, depth, acc) == ReadText(old(rest), 0, "")
        decreases |rest|
      {
        if rest == [] {
          return Err(UnexpectedEnd);
        }
        var t := NextToken();
        match t.value
        case Start(_) => depth := depth + 1;
        case End(_) =>
          if depth == 0 {
            return Ok(acc);
          }
          depth := depth - 1;
        case Chars(s) => if depth == 0 { acc := acc + s; }
        case Misc =>
      }
    }

    method DecodeInside(name: string) returns (r: Result<Value, Error>)
      modifies this
      ensures r.Ok? ==> Element(codec, name, old(rest)) == Ok((r.value, rest))
      ensures r.Err? ==> Element(codec, name, old(rest)) == Err(r.error)
      decreases |rest|, 2
    {
      if name == "array" {
        r := DecodeArray();
      } else if name == "struct" {
        r := DecodeStruct();
      } else {
        var raw := DecodeElement();
        if raw.Err? {
          if name == "string" || IsIntTag(name) || name == "boolean" || name == "base64" {
            return Err(raw.error);
          }
          return Ok(Str(""));
        }
        if IsIntTag(name) {
          var n := ParseInt(TrimSpace(raw.value));
          r := if n.None? then Err(BadInteger) else Ok(Num(Float64(n.value)));
        } else if name == "boolean" {
          r := Ok(Bool(raw.value == "1" || Lower(raw.value) == "true"));
        } else if name == "base64" {
          var d := codec.dec(TrimSpace(raw.value));
          r := if d.None? then Err(BadBase64) else Ok(Bytes(d.value));
        } else {
          r := Ok(Str(raw.value));
        }
      }
    }

    method DecodeValue() returns (r: Result<Value, Error>)
      modifies this
      ensures r.Ok? ==> ReadValue(codec, old(rest)) == Ok((r.value, rest))
      ensures r.Err? ==> ReadValue(codec, old(rest)) == Err(r.error)
    {
      while true
        invariant ReadValue(codec, rest) == ReadValue(codec, old(rest))
        decreases |rest|
      {
        if rest == [] {
          return Err(UnexpectedEnd);
        }
        var t := NextToken();
        if !t.value.Start? {
          continue;
        }
        if t.value.name == "value" {
          r := DecodeValueContent();
          return;
        }
        r := DecodeInside(t.value.name);
        return;
      }
    }

    method DecodeValueContent() returns (r: Result<Value, Error>)
      modifies this
      ensures r.Ok? ==> ReadContent(codec, old(rest)) == Ok((r.value, rest))
      ensures r.Err? ==> ReadContent(codec, old(rest)) == Err(r.error)
      decreases |rest|, 0
    {
      while true
        invariant ReadContent(codec, rest) == ReadContent(codec, old(rest))
        invariant |rest| <= |old(rest)|
        decreases |rest|
      {
        if rest == [] {
          return Err(UnexpectedEnd);
        }
        var t := NextToken();
        match t.value
        case Chars(s) =>
          var text := TrimSpace(s);
          if text != "" {
            return Ok(Str(text));
          }
        case Start(name) =>
          r := DecodeInside(name);
          return;
        case End(name) =>
          if name == "value" {
            return Ok(Str(""));
          }
        case Misc =>
      }
    }

    method DecodeArray() returns (r: Result<Value, Error>)
      modifies this
      ensures r.Ok? ==> ReadArray(codec, old(rest), []) == Ok((r.value, rest))
      ensures r.Err? ==> ReadArray(codec, old(rest), []) == Err(r.error)
      decreases |rest|, 1
    {
      var out: seq<Value> := [];
      while true
        invariant ReadArray(codec, rest, out) == ReadArray(codec, old(rest), [])
        invariant |rest| <= |old(rest)|
        decreases |rest|
      {
        if rest == [] {
          return Err(UnexpectedEnd);
        }
        var t := NextToken();
        if t.value == Start("value") {
          var item := DecodeValueContent();
          if item.Err? {
            return item;
          }
          out := out + [item.value];
        } else if t.value == End("array") {
          return Ok(Arr(out));
        }
      }
    }

    method DecodeStruct() returns (r: Result<Value, Error>)
      modifies this
      ensures r.Ok? ==> ReadStruct(codec, old(rest), "", map[]) == Ok((r.value, rest))
      ensures r.Err? ==> ReadStruct(codec, old(rest), "", map[]) == Err(r.error)
      decreases |rest|, 1
    {
      var out: map<string, Value>, currentName := map[], "";
      while true
        invariant ReadStruct(codec, rest, currentName, out) == ReadStruct(codec, old(rest), "", map[])
        invariant |rest| <= |old(rest)|
        decreases |rest|
      {
        if rest == [] {
          return Err(UnexpectedEnd);
        }
        var t := NextToken();
        if t.value == Start("name") {
          var name := DecodeElement();
          if name.Err? {
            return Err(name.error);
          }
          currentName := name.value;
        } else if t.value == Start("value") {
          var value := DecodeValueContent();
          if value.Err? {
            return value;
          }
          if currentName != "" {
            out := out[currentName := value.value];
            currentName := "";
          }
        } else if t.value == End("struct") {
          return Ok(Struct(out));
        }
      }
    }
  }

  // ---- Writing -------------------------------------------------------------

  /** Text between two tags; an empty text leaves no token. */
  function TextTokens(s: string): Stream {
    if s == "" then [] else [Chars(s)]
  }

  function Wrapped(tag: string, text: string): Stream {
    [Start(tag)] + TextTokens(text) + [End(tag)]
  }

  ghost function Encode(c: Base64, v: Value): Stream
    decreases v, 1, 0
  {
    match v
    case Nil => Wrapped("string", "")
    case Str(s) => Wrapped("string", s)
    case Bool(b) => Wrapped("boolean", if b then "1" else "0")
    case Num(n) => Wrapped("int", IntText(n))
    case Double(text) => Wrapped("double", text)
    case Bytes(d) => Wrapped("base64", c.enc(d))
    case Arr(items) => [Start("array"), Start("data")] + EncodeItems(c, v, 0) + [End("data"), End("array")]
    case Struct(fields) => [Start("struct")] + EncodeFields(c, v, SortedKeys(fields.Keys)) + [End("struct")]
  }

  ghost function EncodeItems(c: Base64, v: Value, from: nat): Stream
    requires v.Arr? && from <= |v.items|
    decreases v, 0, |v.items| - from
  {
    if from == |v.items| then []
    else [Start("value")] + Encode(c, v.items[from]) + [End("value")] + EncodeItems(c, v, from + 1)
  }

  ghost function EncodeFields(c: Base64, v: Value, keys: seq<string>): Stream
    requires v.Struct? && forall k | k in keys :: k in v.fields
    decreases v, 0, |keys|
  {
    if keys == [] then []
    else EncodeField(c, v, keys[0]) + EncodeFields(c, v, keys[1..])
  }

  ghost function EncodeField(c: Base64, v: Value, key: string): Stream
    requires v.Struct? && key in v.fields
    decreases v, 0, 0
  {
    [Start("member")] + Wrapped("name", key)
    + [Start("value")] + Encode(c, v.fields[key]) + [End("value"), End("member")]
  }

  /** `sortStrings`, in place. */
  method SortStrings(a: array<string>)
    modifies a
    ensures Sorted(StrLe, a[..]) && multiset(a[..]) == multiset(old(a[..]))
  {
    StrLeIsTotalOrder();
    ExchangeSort(StrLe, a);
  }

  class Buffer {
    var out: Stream

    constructor ()
      ensures out == []
    {
      out := [];
    }

    method Write(ts: Stream)
      modifies this
      ensures out == old(out) + ts
    {
      out := out + ts;
    }
  }

  method SortKeys(fields: map<string, Value>) returns (keys: seq<string>)
    ensures keys == SortedKeys(fields.Keys)
  {
    var listed := Collect(fields.Keys);
    var a := new string[|listed|](i requires 0 <= i < |listed| => listed[i]);
    assert a[..] == listed;
    ListsMultiset(listed, fields.Keys);
    SortStrings(a);
    keys := a[..];
    MultisetLists(keys, fields.Keys);
    SortedKeysUnique(keys, fields.Keys);
  }

  /** `encodeValue` appends exactly the tokens of the value to the buffer. */
  method EncodeValue(c: Base64, buf: Buffer, v: Value)
    modifies buf
    ensures buf.out == old(buf.out) + Encode(c, v)
    decreases v, 1
  {
    match v
    case Nil => buf.Write(Wrapped("string", ""));
    case Str(s) => buf.Write(Wrapped("string", s));
    case Bool(b) => buf.Write(Wrapped("boolean", if b then "1" else "0"));
    case Num(n) => buf.Write(Wrapped("int", IntText(n)));
    case Double(text) => buf.Write(Wrapped("double", text));
    case Bytes(d) => buf.Write(Wrapped("base64", c.enc(d)));
    case Arr(_) => EncodeArray(c, buf, v);
    case Struct(_) => EncodeStruct(c, buf, v);
  }

  method EncodeArray(c: Base64, buf: Buffer, v: Value)
    requires v.Arr?
    modifies buf
    ensures buf.out == old(buf.out) + Encode(c, v)
    decreases v, 0
  {
    ghost var base := buf.out + [Start("array"), Start("data")];
    buf.Write([Start("array"), Start("data")]);
    for i := 0 to |v.items|
      invariant buf.out + EncodeItems(c, v, i) == base + EncodeItems(c, v, 0)
    {
      ghost var before, code, later := buf.out, Encode(c, v.items[i]), EncodeItems(c, v, i + 1);
      buf.Write([Start("value")]);
      EncodeValue(c, buf, v.items[i]);
      buf.Write([End("value")]);
      Regroup(before, [Start("value")], code, [End("value")], later);
    }
    ghost var all := EncodeItems(c, v, 0);
    assert buf.out == base + all;
    buf.Write([End("data"), End("array")]);
    Enclose(old(buf.out), [Start("array"), Start("data")], all, [End("data"), End("array")]);
  }

  method EncodeStruct(c: Base64, buf: Buffer, v: Value)
    requires v.Struct?
    modifies buf
    ensures buf.out == old(buf.out) + Encode(c, v)
    decreases v, 0, 2
  {
    buf.Write([Start("struct")]);
    var keys := SortKeys(v.fields);
    EncodeMembers(c, buf, v, keys);
    buf.Write([End("struct")]);
    Enclose(old(buf.out), [Start("struct")], EncodeFields(c, v, keys), [End("struct")]);
  }

  method EncodeMembers(c: Base64, buf: Buffer, v: Value, keys: seq<string>)
    requires v.Struct? && forall k | k in keys :: k in v.fields
    modifies buf
    ensures buf.out == old(buf.out) + EncodeFields(c, v, keys)
    decreases v, 0, 1
  {
    var i := 0;
    while i < |keys|
      invariant i <= |keys|
      invariant buf.out + EncodeFields(c, v, keys[i..]) == old(buf.out) + EncodeFields(c, v, keys)
    {
      ghost var before := buf.out;
      EncodeMember(c, buf, v, keys[i]);
      FieldsStep(c, v, keys, i);
      Regroup2(before, EncodeField(c, v, keys[i]), EncodeFields(c, v, keys[i + 1..]));
      i := i + 1;
    }
    assert keys[i..] == [];
  }

  method EncodeMember(c: Base64, buf: Buffer, v: Value, key: string)
    requires v.Struct? && key in v.fields
    modifies buf
    ensures buf.out == old(buf.out) + EncodeField(c, v, key)
    decreases v, 0, 0
  {
    buf.Write([Start("member")] + Wrapped("name", key) + [Start("value")]);
    EncodeValue(c, buf, v.fields[key]);
    buf.Write([End("value"), End("member")]);
    ghost var head := [Start("member")] + Wrapped("name", key) + [Start("value")];
    Enclose(old(buf.out), head, Encode(c, v.fields[key]), [End("value"), End("member")]);
  }

  lemma FieldsStep(c: Base64, v: Value, keys: seq<string>, i: nat)
    requires v.Struct? && i < |keys| && forall k | k in keys :: k in v.fields
    ensures EncodeFields(c, v, keys[i..]) == EncodeField(c, v, keys[i]) + EncodeFields(c, v, keys[i + 1..])
  {
    assert keys[i..][0] == keys[i] && keys[i..][1..] == keys[i + 1..];
  }

  lemma Regroup(a: Stream, b: Stream, c: Stream, d: Stream, e: Stream)
    ensures a + b + c + d + e == a + (b + c + d + e)
  {
  }

  lemma Regroup2(a: Stream, b: Stream, c: Stream)
    ensures a + b + c == a + (b + c)
  {
  }

  lemma Enclose(a: Stream, b: Stream, c: Stream, d: Stream)
    ensures a + b + c + d == a + (b + c + d)
  {
  }

  // ---- What reading a written value gives -----------------------------------

  /**
   The value a reader makes of a written value: nil becomes the empty string, a
   non-integral number its text, an integer its float64 rounding, and a member
   with an empty name disappears.
   */
  function Canon(v: Value): Value {
    match v
    case Nil => Str("")
    case Double(text) => Str(text)
    case Num(n) => Num(Float64(n))
    case Arr(items) => Arr(seq(|items|, i requires 0 <= i < |items| => Canon(items[i])))
    case Struct(fields) => Struct(map k | k in fields && k != "" :: Canon(fields[k]))
    case _ => v
  }

  /** Every integer in the value is one the Go integer types hold. */
  predicate Int64s(v: Value) {
    match v
    case Num(n) => IsInt64(n)
    case Arr(items) => forall i | 0 <= i < |items| :: Int64s(items[i])
    case Struct(fields) => forall k | k in fields :: Int64s(fields[k])
    case _ => true
  }

  /** No part of the value is of a kind the reader cannot give back. */
  predicate Lossless(v: Value) {
    match v
    case Nil => false
    case Double(_) => false
    case Num(n) => Representable(n)
    case Arr(items) => forall i | 0 <= i < |items| :: Lossless(items[i])
    case Struct(fields) => "" !in fields && forall k | k in fields :: Lossless(fields[k])
    case _ => true
  }

  lemma ReadWrapped(text: string, rest: Stream, tag: string)
    ensures ReadText(TextTokens(text) + [End(tag)] + rest, 0, "") == Ok((text, rest))
  {
    var ts := TextTokens(text) + [End(tag)] + rest;
    if text == "" {
      assert ts[0] == End(tag) && ts[1..] == rest;
    } else {
      assert ts[0] == Chars(text) && ts[1..] == [End(tag)] + rest;
      assert ts[1..][0] == End(tag) && ts[1..][1..] == rest;
      assert "" + text == text;
    }
  }

  /** A scalar element reads back as the switch on its tag says. */
  lemma ReadScalar(c: Base64, tag: string, text: string, rest: Stream)
    requires tag != "array" && tag != "struct"
    ensures ReadContent(c, Wrapped(tag, text) + rest) == Element(c, tag, TextTokens(text) + [End(tag)] + rest)
    ensures ReadText(TextTokens(text) + [End(tag)] + rest, 0, "") == Ok((text, rest))
  {
    ReadWrapped(text, rest, tag);
    var ts := Wrapped(tag, text) + rest;
    assert ts[0] == Start(tag) && ts[1..] == TextTokens(text) + [End(tag)] + rest;
  }

  lemma NumberElement(c: Base64, ts: Stream, raw: string, n: int, rest: Stream)
    requires ReadText(ts, 0, "") == Ok((raw, rest)) && ParseInt(TrimSpace(raw)) == Some(n)
    ensures Element(c, "int", ts) == Ok((Num(Float64(n)), rest))
  {
  }

  lemma IntTextParses(n: int)
    requires IsInt64(n)
    ensures ParseInt(TrimSpace(IntText(n))) == Some(n)
  {
    var s := IntText(n);
    ParseIntText(n);
    assert Trimmed(s) by { IntTextEnds(n); }
  }

  lemma NumberReads(c: Base64, n: int, rest: Stream)
    requires IsInt64(n)
    ensures ReadContent(c, Wrapped("int", IntText(n)) + rest) == Ok((Num(Float64(n)), rest))
  {
    var text := IntText(n);
    ReadScalar(c, "int", text, rest);
    IntTextParses(n);
    NumberElement(c, TextTokens(text) + [End("int")] + rest, text, n, rest);
  }

  lemma BytesElement(c: Base64, ts: Stream, raw: string, d: seq<bv8>, rest: Stream)
    requires ReadText(ts, 0, "") == Ok((raw, rest)) && c.dec(TrimSpace(raw)) == Some(d)
    ensures Element(c, "base64", ts) == Ok((Bytes(d), rest))
  {
  }

  lemma BytesRead(c: Base64, d: seq<bv8>, rest: Stream)
    requires c.Faithful()
    ensures ReadContent(c, Wrapped("base64", c.enc(d)) + rest) == Ok((Bytes(d), rest))
  {
    var text := c.enc(d);
    ReadScalar(c, "base64", text, rest);
    BytesElement(c, TextTokens(text) + [End("base64")] + rest, text, d, rest);
  }

  lemma BooleanReads(c: Base64, b: bool, rest: Stream)
    ensures ReadContent(c, Wrapped("boolean", if b then "1" else "0") + rest) == Ok((Bool(b), rest))
  {
    ReadScalar(c, "boolean", if b then "1" else "0", rest);
    assert |Lower("0")| == 1 && |"true"| == 4;
  }

  lemma TextReads(c: Base64, tag: string, text: string, rest: Stream)
    requires tag == "string" || tag == "double"
    ensures ReadContent(c, Wrapped(tag, text) + rest) == Ok((Str(text), rest))
  {
    ReadScalar(c, tag, text, rest);
  }

  lemma ScalarReadsBack(c: Base64, v: Value, rest: Stream)
    requires c.Faithful() && Int64s(v) && !v.Arr? && !v.Struct?
    ensures ReadContent(c, Encode(c, v) + rest) == Ok((Canon(v), rest))
  {
    match v
    case Nil => TextReads(c, "string", "", rest);
    case Str(s) => TextReads(c, "string", s, rest);
    case Bool(b) => BooleanReads(c, b, rest);
    case Num(n) => NumberReads(c, n, rest);
    case Double(text) => TextReads(c, "double", text, rest);
    case Bytes(d) => BytesRead(c, d, rest);
  }

  // One token at a time.

  lemma Uncons(t: Token, ts: Stream)
    ensures ([t] + ts)[0] == t && ([t] + ts)[1..] == ts
  {
  }

  lemma ArraySkips(c: Base64, t: Token, ts: Stream, acc: seq<Value>)
    requires t != Start("value") && t != End("array")
    ensures ReadArray(c, [t] + ts, acc) == ReadArray(c, ts, acc)
  {
    Uncons(t, ts);
  }

  lemma StructSkips(c: Base64, t: Token, ts: Stream, name: string, acc: map<string, Value>)
    requires t != Start("name") && t != Start("value") && t != End("struct")
    ensures ReadStruct(c, [t] + ts, name, acc) == ReadStruct(c, ts, name, acc)
  {
    Uncons(t, ts);
  }

  lemma StructTakesName(c: Base64, key: string, ts: Stream, acc: map<string, Value>)
    ensures ReadStruct(c, Wrapped("name", key) + ts, "", acc) == ReadStruct(c, ts, key, acc)
  {
    var inner := TextTokens(key) + [End("name")] + ts;
    assert Wrapped("name", key) + ts == [Start("name")] + inner;
    Uncons(Start("name"), inner);
    ReadWrapped(key, ts, "name");
  }

  lemma StructTakesValue(c: Base64, name: string, item: Value, ts: Stream, later: Stream, acc: map<string, Value>)
    requires ReadContent(c, ts) == Ok((item, later))
    ensures ReadStruct(c, [Start("value")] + ts, name, acc)
         == ReadStruct(c, later, "", if name == "" then acc else acc[name := item])
  {
    Uncons(Start("value"), ts);
  }

  /**
   Reading what was written: for every value and whatever follows, the reader
   gives the canonical form of the value and stops right after its element.
   */
  lemma {:induction false} ReadsBack(c: Base64, v: Value, rest: Stream)
    requires c.Faithful() && Int64s(v)
    ensures ReadContent(c, Encode(c, v) + rest) == Ok((Canon(v), rest))
    decreases v, 1, 0
  {
    match v
    case Arr(_) =>
      var inner := EncodeItems(c, v, 0) + ([End("data"), End("array")] + rest);
      ItemsReadBack(c, v, 0, [], rest);
      assert [] + CanonFrom(v, 0) == Canon(v).items;
      assert Encode(c, v) + rest == [Start("array")] + ([Start("data")] + inner);
      Uncons(Start("array"), [Start("data")] + inner);
      ArraySkips(c, Start("data"), inner, []);
    case Struct(fields) =>
      StructReadsBack(c, v, rest);
    case _ => ScalarReadsBack(c, v, rest);
  }

  lemma {:induction false} StructReadsBack(c: Base64, v: Value, rest: Stream)
    requires c.Faithful() && Int64s(v) && v.Struct?
    ensures ReadContent(c, Encode(c, v) + rest) == Ok((Canon(v), rest))
    decreases v, 0
  {
    var keys := SortedKeys(v.fields.Keys);
    FieldsReadBack(c, v, keys, map[], rest);
    EnclosedStruct(c, EncodeFields(c, v, keys), CanonOf(v, keys), rest);
    assert CanonOf(v, keys) == Canon(v).fields;
  }

  lemma EnclosedStruct(c: Base64, members: Stream, fields: map<string, Value>, rest: Stream)
    requires ReadStruct(c, members + ([End("struct")] + rest), "", map[]) == Ok((Struct(map[] + fields), rest))
    ensures ReadContent(c, [Start("struct")] + members + [End("struct")] + rest) == Ok((Struct(fields), rest))
  {
    var inner := members + ([End("struct")] + rest);
    assert [Start("struct")] + members + [End("struct")] + rest == [Start("struct")] + inner;
    Uncons(Start("struct"), inner);
    assert map[] + fields == fields;
  }

  lemma ArrayTakesItem(c: Base64, item: Value, ts: Stream, later: Stream, acc: seq<Value>)
    requires ReadContent(c, ts) == Ok((item, later))
    ensures ReadArray(c, [Start("value")] + ts, acc) == ReadArray(c, later, acc + [item])
  {
    Uncons(Start("value"), ts);
  }

  lemma ArrayEnds(c: Base64, rest: Stream, acc: seq<Value>)
    ensures ReadArray(c, [End("data"), End("array")] + rest, acc) == Ok((Arr(acc), rest))
  {
    assert [End("data"), End("array")] + rest == [End("data")] + ([End("array")] + rest);
    ArraySkips(c, End("data"), [End("array")] + rest, acc);
    Uncons(End("array"), rest);
  }

  /** The canonical forms of the items from an index on. */
  function CanonFrom(v: Value, from: nat): seq<Value>
    requires v.Arr? && from <= |v.items|
  {
    Canon(v).items[from..]
  }

  lemma CanonFromStep(v: Value, from: nat, acc: seq<Value>)
    requires v.Arr? && from < |v.items|
    ensures acc + CanonFrom(v, from) == (acc + [Canon(v.items[from])]) + CanonFrom(v, from + 1)
  {
    assert Canon(v).items[from] == Canon(v.items[from]);
  }

  lemma {:induction false} ItemsReadBack(c: Base64, v: Value, from: nat, acc: seq<Value>, rest: Stream)
    requires c.Faithful() && Int64s(v) && v.Arr? && from <= |v.items|
    ensures ReadArray(c, EncodeItems(c, v, from) + ([End("data"), End("array")] + rest), acc)
         == Ok((Arr(acc + CanonFrom(v, from)), rest))
    decreases v, 0, |v.items| - from
  {
    var tail := [End("data"), End("array")] + rest;
    if from == |v.items| {
      assert EncodeItems(c, v, from) + tail == tail;
      ArrayEnds(c, rest, acc);
      assert acc + CanonFrom(v, from) == acc;
    } else {
      var later := EncodeItems(c, v, from + 1) + tail;
      var after := [End("value")] + later;
      ItemsSplit(c, v, from, tail);
      ReadsBack(c, v.items[from], after);
      ArrayTakesItem(c, Canon(v.items[from]), Encode(c, v.items[from]) + after, after, acc);
      ArraySkips(c, End("value"), later, acc + [Canon(v.items[from])]);
      ItemsReadBack(c, v, from + 1, acc + [Canon(v.items[from])], rest);
      CanonFromStep(v, from, acc);
    }
  }

  lemma ItemsSplit(c: Base64, v: Value, from: nat, tail: Stream)
    requires v.Arr? && from < |v.items|
    ensures EncodeItems(c, v, from) + tail
         == [Start("value")] + (Encode(c, v.items[from]) + ([End("value")] + (EncodeItems(c, v, from + 1) + tail)))
  {
    Reassociate([Start("value")], Encode(c, v.items[from]), [End("value")], EncodeItems(c, v, from + 1), tail);
  }

  lemma Reassociate(a: Stream, b: Stream, c: Stream, d: Stream, e: Stream)
    ensures a + b + c + d + e == a + (b + (c + (d + e)))
  {
  }

  /** The members the reader keeps of the given keys. */
  function CanonOf(v: Value, keys: seq<string>): map<string, Value>
    requires v.Struct? && forall k | k in keys :: k in v.fields
  {
    map k | k in keys && k != "" :: Canon(v.fields[k])
  }

  lemma {:induction false} FieldsReadBack(c: Base64, v: Value, keys: seq<string>, acc: map<string, Value>, rest: Stream)
    requires c.Faithful() && Int64s(v) && v.Struct? && NoDup(keys) && forall k | k in keys :: k in v.fields
    ensures ReadStruct(c, EncodeFields(c, v, keys) + ([End("struct")] + rest), "", acc)
         == Ok((Struct(acc + CanonOf(v, keys)), rest))
    decreases v, 0, |keys|
  {
    var tail := [End("struct")] + rest;
    if keys == [] {
      assert EncodeFields(c, v, keys) + tail == tail;
      Uncons(End("struct"), rest);
      assert acc + CanonOf(v, keys) == acc;
    } else {
      var later := EncodeFields(c, v, keys[1..]) + tail;
      var acc1 := if keys[0] == "" then acc else acc[keys[0] := Canon(v.fields[keys[0]])];
      Regroup2(EncodeField(c, v, keys[0]), EncodeFields(c, v, keys[1..]), tail);
      MemberReadsBack(c, v, keys[0], acc, later);
      FieldsReadBack(c, v, keys[1..], acc1, rest);
      CanonOfStep(v, keys, acc);
    }
  }

  lemma CanonOfStep(v: Value, keys: seq<string>, acc: map<string, Value>)
    requires keys != [] && v.Struct? && NoDup(keys) && forall k | k in keys :: k in v.fields
    ensures (if keys[0] == "" then acc else acc[keys[0] := Canon(v.fields[keys[0]])]) + CanonOf(v, keys[1..])
         == acc + CanonOf(v, keys)
  {
    assert keys[0] !in keys[1..];
    assert forall k :: k in keys <==> k == keys[0] || k in keys[1..];
  }

  /** One written member advances the struct reader past it and records it unless its name is empty. */
  lemma {:induction false} MemberReadsBack(c: Base64, v: Value, key: string, acc: map<string, Value>, later: Stream)
    requires c.Faithful() && Int64s(v) && v.Struct? && key in v.fields
    ensures ReadStruct(c, EncodeField(c, v, key) + later, "", acc)
         == ReadStruct(c, later, "", if key == "" then acc else acc[key := Canon(v.fields[key])])
    decreases v, 0, 0
  {
    var acc1 := if key == "" then acc else acc[key := Canon(v.fields[key])];
    var t4 := [End("member")] + later;
    var t3 := [End("value")] + t4;
    var t2 := [Start("value")] + (Encode(c, v.fields[key]) + t3);
    var t1 := Wrapped("name", key) + t2;
    FieldOpens(c, v, key, later);
    StructSkips(c, Start("member"), t1, "", acc);
    StructTakesName(c, key, t2, acc);
    ReadsBack(c, v.fields[key], t3);
    StructTakesValue(c, key, Canon(v.fields[key]), Encode(c, v.fields[key]) + t3, t3, acc);
    StructSkips(c, End("value"), t4, "", acc1);
    StructSkips(c, End("member"), later, "", acc1);
    hide *;
  }

  lemma FieldOpens(c: Base64, v: Value, key: string, later: Stream)
    requires v.Struct? && key in v.fields
    ensures EncodeField(c, v, key) + later
         == [Start("member")] + (Wrapped("name", key)
              + ([Start("value")] + (Encode(c, v.fields[key]) + ([End("value")] + ([End("member")] + later)))))
  {
    hide Encode, Wrapped;
  }

  /** A value is its own canonical form exactly when it has no lossy part. */
  lemma {:induction false} CanonFixed(v: Value)
    ensures Canon(v) == v <==> Lossless(v)
  {
    match v
    case Num(n) => Float64Exact(n);
    case Arr(items) =>
      forall i | 0 <= i < |items| ensures Canon(items[i]) == items[i] <==> Lossless(items[i]) { CanonFixed(items[i]); }
      var canon := Canon(v).items;
      if forall i | 0 <= i < |items| :: Lossless(items[i]) {
        assert canon == items;
      } else {
        var i :| 0 <= i < |items| && !Lossless(items[i]);
        assert canon[i] != items[i];
      }
    case Struct(fields) =>
      forall k | k in fields ensures Canon(fields[k]) == fields[k] <==> Lossless(fields[k]) { CanonFixed(fields[k]); }
      var canon := Canon(v).fields;
      if Lossless(v) {
        assert canon == fields;
      } else if "" in fields {
        assert "" !in canon;
      } else {
        var k :| k in fields && !Lossless(fields[k]);
        assert canon[k] != fields[k];
      }
    case _ =>
  }

  lemma ValueOpens(c: Base64, ts: Stream)
    ensures ReadValue(c, [Start("value")] + ts) == ReadContent(c, ts)
  {
    Uncons(Start("value"), ts);
  }

  lemma Reassociate4(a: Stream, b: Stream, c: Stream, d: Stream)
    ensures a + b + c + d == a + (b + (c + d))
  {
  }

  /**
   The round trip through `<value>` elements: a whole written value followed by
   anything is read back, leaving exactly the closing tag and the rest; and what is
   read is the value itself exactly when the value is lossless.
   */
  lemma RoundTrip(c: Base64, v: Value, rest: Stream)
    requires c.Faithful() && Int64s(v)
    ensures var r := ReadValue(c, [Start("value")] + Encode(c, v) + [End("value")] + rest);
      && r == Ok((Canon(v), [End("value")] + rest))
      && (r.value.0 == v <==> Lossless(v))
  {
    var inner := Encode(c, v) + ([End("value")] + rest);
    Reassociate4([Start("value")], Encode(c, v), [End("value")], rest);
    ValueOpens(c, inner);
    ReadsBack(c, v, [End("value")] + rest);
    CanonFixed(v);
  }

  /** Integers up to 2^53 survive the trip. */
  lemma SmallIntegersSurvive(n: int)
    requires Abs(n) <= TWO_53
    ensures Lossless(Num(n)) && Canon(Num(n)) == Num(n)
  {
    Float64Exact(n);
  }

  /** The first larger integer does not: it reads back as its neighbour. */
  lemma LargeIntegerLost()
    ensures Canon(Num(TWO_53 + 1)) == Num(TWO_53)
  {
    assert Ulp((TWO_53 + 1) / 2) == 1;
    assert Ulp(TWO_53 + 1) == 2;
  }
}
