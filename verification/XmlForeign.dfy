/**
 What the XML-RPC reader makes of documents that other programs write: a grammar of value
 elements, the tokens and the meaning of each document, and the proof that the reader takes
 every document by its meaning, gives its error when it has a malformed number or base64 text,
 and fails on every document cut short.
 */
module XmlForeign {
  import opened Wrappers
  import opened Text
  import opened Numbers
  import opened XmlRpc

  /** A piece of an element with text: text, a comment or the like, or an element inside it. */
  datatype Piece = Said(text: string) | Remark | Inner(tag: string, pieces: seq<Piece>)

  /**
   The content of a value element after its start tag. `Bare` is text without a type, `Nothing` an
   empty element and includes its end tag, `Typed` an element with text, and arrays and structs
   hold values with anything around them that does not belong to them.
   */
  datatype Doc =
    | Bare(before: Stream, text: string)
    | Nothing(before: Stream)
    | Typed(before: Stream, tag: string, pieces: seq<Piece>)
    | Array(before: Stream, lead: Stream, items: seq<Item>)
    | Record(before: Stream, lead: Stream, members: seq<Member>)

  datatype Item = Item(doc: Doc, after: Stream)

  datatype Member = Member(name: seq<Piece>, mid: Stream, doc: Doc, after: Stream)

  // ---- The tokens ---------------------------------------------------------------------

  function PieceTokens(pieces: seq<Piece>): Stream
    decreases pieces
  {
    if pieces == [] then []
    else
      (match pieces[0]
       case Said(t) => [Chars(t)]
       case Remark => [Misc]
       case Inner(tag, inside) => [Start(tag)] + PieceTokens(inside) + [End(tag)]) + PieceTokens(pieces[1..])
  }

  function Tokens(d: Doc): Stream
    decreases d, 1
  {
    d.before + Body(d)
  }

  function Body(d: Doc): Stream
    decreases d, 0
  {
    match d
    case Bare(_, text) => [Chars(text)]
    case Nothing(_) => [End("value")]
    case Typed(_, tag, pieces) => [Start(tag)] + (PieceTokens(pieces) + [End(tag)])
    case Array(_, lead, items) => [Start("array")] + (lead + (ItemTokens(items) + [End("array")]))
    case Record(_, lead, members) => [Start("struct")] + (lead + (MemberTokens(members) + [End("struct")]))
  }

  function ItemTokens(items: seq<Item>): Stream
    decreases items, 2
  {
    if items == [] then []
    else [Start("value")] + (Tokens(items[0].doc) + (items[0].after + ItemTokens(items[1..])))
  }

  function MemberTokens(members: seq<Member>): Stream
    decreases members, 2
  {
    if members == [] then []
    else
      var m := members[0];
      [Start("name")] + (PieceTokens(m.name) + ([End("name")] + (m.mid
        + ([Start("value")] + (Tokens(m.doc) + (m.after + MemberTokens(members[1..])))))))
  }

  // ---- The meaning ----------------------------------------------------------------------

  /** The text of an element: what is said in it, not in the elements inside. */
  function Saying(pieces: seq<Piece>): string {
    if pieces == [] then ""
    else if pieces[0].Said? then pieces[0].text + Saying(pieces[1..])
    else Saying(pieces[1..])
  }

  /** What an element with this text means: the tag decides, and a tag that is not known means the text. */
  function TextMeans(c: Base64, tag: string, text: string): Result<Value, Error> {
    if tag in {"int", "i4", "i8"} then
      var n := ParseInt(TrimSpace(text));
      if n.None? then Err(BadInteger) else Ok(Num(Float64(n.value)))
    else if tag == "boolean" then Ok(Bool(text == "1" || Lower(text) == "true"))
    else if tag == "base64" then
      var d := c.dec(TrimSpace(text));
      if d.None? then Err(BadBase64) else Ok(Bytes(d.value))
    else Ok(Str(text))
  }

  /** The meaning of a document, or the first error in it. */
  function Means(c: Base64, d: Doc): Result<Value, Error>
    decreases d
  {
    match d
    case Bare(_, text) => Ok(Str(TrimSpace(text)))
    case Nothing(_) => Ok(Str(""))
    case Typed(_, tag, pieces) => TextMeans(c, tag, Saying(pieces))
    case Array(_, _, items) =>
      (match ItemsMean(c, items)
       case Err(e) => Err(e)
       case Ok(vs) => Ok(Arr(vs)))
    case Record(_, _, members) =>
      match MembersMean(c, members)
      case Err(e) => Err(e)
      case Ok(fields) => Ok(Struct(fields))
  }

  function ItemsMean(c: Base64, items: seq<Item>): Result<seq<Value>, Error>
    decreases items
  {
    if items == [] then Ok([])
    else
      match Means(c, items[0].doc)
      case Err(e) => Err(e)
      case Ok(v) =>
        match ItemsMean(c, items[1..])
        case Err(e) => Err(e)
        case Ok(vs) => Ok([v] + vs)
  }

  /** The named members; of several with one name the last counts, and one with an empty name does not. */
  function MembersMean(c: Base64, members: seq<Member>): Result<map<string, Value>, Error>
    decreases members
  {
    if members == [] then Ok(map[])
    else
      match Means(c, members[0].doc)
      case Err(e) => Err(e)
      case Ok(v) =>
        match MembersMean(c, members[1..])
        case Err(e) => Err(e)
        case Ok(fields) =>
          var name := Saying(members[0].name);
          Ok((if name == "" then map[] else map[name := v]) + fields)
  }

  // ---- What counts as a document -----------------------------------------------------------

  /** Comments and white space. */
  predicate Quiet(ts: Stream) {
    forall i | 0 <= i < |ts| :: ts[i] == Misc || (ts[i].Chars? && TrimSpace(ts[i].text) == "")
  }

  /** Anything between the values of an array. */
  predicate BetweenItems(ts: Stream) {
    forall i | 0 <= i < |ts| :: ts[i] != Start("value") && ts[i] != End("array")
  }

  /** Anything between the names and values of a struct. */
  predicate BetweenMembers(ts: Stream) {
    forall i | 0 <= i < |ts| :: ts[i] != Start("name") && ts[i] != Start("value") && ts[i] != End("struct")
  }

  predicate Proper(d: Doc)
    decreases d
  {
    && Quiet(d.before)
    && match d
       case Bare(_, text) => TrimSpace(text) != ""
       case Nothing(_) => true
       case Typed(_, tag, _) => tag != "array" && tag != "struct"
       case Array(_, lead, items) =>
         BetweenItems(lead) && forall i | 0 <= i < |items| :: Proper(items[i].doc) && BetweenItems(items[i].after)
       case Record(_, lead, members) =>
         && BetweenMembers(lead)
         && forall i | 0 <= i < |members| ::
              Proper(members[i].doc) && BetweenMembers(members[i].mid) && BetweenMembers(members[i].after)
  }

  /** The tokens are those of a value with this meaning. */
  ghost predicate Denotes(c: Base64, ts: Stream, meaning: Result<Value, Error>) {
    exists d :: Proper(d) && Tokens(d) == ts && Means(c, d) == meaning
  }

  // ---- The reader takes a document by its meaning ---------------------------------------------

  lemma TextToken(t: Token, ts: Stream, depth: nat, acc: string)
    ensures t.Chars? ==> ReadText([t] + ts, depth, acc) == ReadText(ts, depth, if depth == 0 then acc + t.text else acc)
    ensures t.Misc? ==> ReadText([t] + ts, depth, acc) == ReadText(ts, depth, acc)
    ensures t.Start? ==> ReadText([t] + ts, depth, acc) == ReadText(ts, depth + 1, acc)
    ensures t.End? && depth > 0 ==> ReadText([t] + ts, depth, acc) == ReadText(ts, depth - 1, acc)
  {
    Uncons(t, ts);
  }

  lemma PiecesOpen(pieces: seq<Piece>, tail: Stream)
    requires pieces != []
    ensures var later := PieceTokens(pieces[1..]) + tail;
      PieceTokens(pieces) + tail
        == match pieces[0]
           case Said(t) => [Chars(t)] + later
           case Remark => [Misc] + later
           case Inner(tag, inside) => [Start(tag)] + (PieceTokens(inside) + ([End(tag)] + later))
  {
  }

  lemma SayingStep(pieces: seq<Piece>, acc: string)
    requires pieces != []
    ensures pieces[0].Said? ==> acc + Saying(pieces) == acc + pieces[0].text + Saying(pieces[1..])
    ensures !pieces[0].Said? ==> acc + Saying(pieces) == acc + Saying(pieces[1..])
  {
    if pieces[0].Said? {
      AppendText(acc, pieces[0].text, Saying(pieces[1..]));
    }
  }

  lemma AppendText(a: string, b: string, c: string)
    ensures a + (b + c) == a + b + c
  {
  }

  /** Reading the text of an element passes over its pieces. */
  lemma {:induction false} ReadsPieces(pieces: seq<Piece>, tail: Stream, depth: nat, acc: string)
    ensures ReadText(PieceTokens(pieces) + tail, depth, acc)
         == ReadText(tail, depth, if depth == 0 then acc + Saying(pieces) else acc)
    decreases pieces
  {
    if pieces == [] {
      assert PieceTokens(pieces) + tail == tail && acc + "" == acc;
      hide ReadText;
    } else {
      PiecesOpen(pieces, tail);
      SayingStep(pieces, acc);
      var later := PieceTokens(pieces[1..]) + tail;
      hide ReadText, PieceTokens, Saying;
      match pieces[0]
      case Said(t) =>
        TextToken(Chars(t), later, depth, acc);
        ReadsPieces(pieces[1..], tail, depth, if depth == 0 then acc + t else acc);
      case Remark =>
        TextToken(Misc, later, depth, acc);
        ReadsPieces(pieces[1..], tail, depth, acc);
      case Inner(tag, inside) =>
        var close := [End(tag)] + later;
        TextToken(Start(tag), PieceTokens(inside) + close, depth, acc);
        ReadsPieces(inside, close, depth + 1, acc);
        TextToken(End(tag), later, depth + 1, acc);
        ReadsPieces(pieces[1..], tail, depth, acc);
    }
  }

  lemma ReadsWhole(pieces: seq<Piece>, tag: string, rest: Stream)
    ensures ReadText(PieceTokens(pieces) + ([End(tag)] + rest), 0, "") == Ok((Saying(pieces), rest))
  {
    ReadsPieces(pieces, [End(tag)] + rest, 0, "");
    Uncons(End(tag), rest);
    assert "" + Saying(pieces) == Saying(pieces);
  }

  lemma {:induction false} ContentSkips(c: Base64, gap: Stream, ts: Stream)
    requires Quiet(gap)
    ensures ReadContent(c, gap + ts) == ReadContent(c, ts)
  {
    if gap == [] {
      assert gap + ts == ts;
    } else {
      assert (gap + ts)[0] == gap[0] && (gap + ts)[1..] == gap[1..] + ts;
      ContentSkips(c, gap[1..], ts);
      hide Element, TrimSpace;
    }
  }

  lemma {:induction false} ArraySkipsAll(c: Base64, gap: Stream, ts: Stream, acc: seq<Value>)
    requires BetweenItems(gap)
    ensures ReadArray(c, gap + ts, acc) == ReadArray(c, ts, acc)
  {
    if gap == [] {
      assert gap + ts == ts;
    } else {
      assert gap + ts == [gap[0]] + (gap[1..] + ts);
      ArraySkips(c, gap[0], gap[1..] + ts, acc);
      ArraySkipsAll(c, gap[1..], ts, acc);
      hide ReadArray;
    }
  }

  lemma {:induction false} StructSkipsAll(c: Base64, gap: Stream, ts: Stream, name: string, acc: map<string, Value>)
    requires BetweenMembers(gap)
    ensures ReadStruct(c, gap + ts, name, acc) == ReadStruct(c, ts, name, acc)
  {
    if gap == [] {
      assert gap + ts == ts;
    } else {
      assert gap + ts == [gap[0]] + (gap[1..] + ts);
      StructSkips(c, gap[0], gap[1..] + ts, name, acc);
      StructSkipsAll(c, gap[1..], ts, name, acc);
      hide ReadStruct;
    }
  }

  /** What the reader gives for a meaning, with the rest of the stream. */
  function Given(m: Result<Value, Error>, rest: Stream): Decoded {
    match m
    case Err(e) => Err(e)
    case Ok(v) => Ok((v, rest))
  }

  lemma TextElement(c: Base64, tag: string, ts: Stream, text: string, rest: Stream)
    requires tag != "array" && tag != "struct" && ReadText(ts, 0, "") == Ok((text, rest))
    ensures Element(c, tag, ts) == Given(TextMeans(c, tag, text), rest)
  {
    hide ReadText, TrimSpace, Lower, ParseInt, Float64;
  }

  lemma ContentStarts(c: Base64, tag: string, ts: Stream)
    ensures ReadContent(c, [Start(tag)] + ts) == Element(c, tag, ts)
  {
    Uncons(Start(tag), ts);
    hide Element;
  }

  lemma ElementArray(c: Base64, ts: Stream)
    ensures Element(c, "array", ts) == ReadArray(c, ts, [])
    ensures Element(c, "struct", ts) == ReadStruct(c, ts, "", map[])
  {
    hide ReadArray, ReadStruct;
  }

  /**
   The reader takes every document, followed by anything, by its meaning: it gives the value and
   stops right after the document, or gives its first error.
   */
  lemma {:induction false} ReadsDoc(c: Base64, d: Doc, rest: Stream)
    requires Proper(d)
    ensures ReadContent(c, Tokens(d) + rest) == Given(Means(c, d), rest)
    decreases d, 1
  {
    assert Tokens(d) + rest == d.before + (Body(d) + rest);
    ContentSkips(c, d.before, Body(d) + rest);
    ReadsBody(c, d, rest);
    hide ReadContent, Tokens, Body, Means;
  }

  lemma {:induction false} ReadsBody(c: Base64, d: Doc, rest: Stream)
    requires Proper(d)
    ensures ReadContent(c, Body(d) + rest) == Given(Means(c, d), rest)
    decreases d, 0
  {
    match d
    case Bare(_, text) => BareReads(c, text, rest);
    case Nothing(_) => EmptyReads(c, rest);
    case Typed(_, tag, pieces) =>
      assert Body(d) + rest == [Start(tag)] + (PieceTokens(pieces) + ([End(tag)] + rest));
      ReadsTyped(c, tag, pieces, rest);
    case Array(_, lead, items) =>
      var ts := ItemTokens(items) + ([End("array")] + rest);
      assert Body(d) + rest == [Start("array")] + (lead + ts);
      ArrayOpens(c, lead, ts);
      ReadsItems(c, items, rest, []);
      NothingFirst(c, items);
    case Record(_, lead, members) =>
      var ts := MemberTokens(members) + ([End("struct")] + rest);
      assert Body(d) + rest == [Start("struct")] + (lead + ts);
      StructOpens(c, lead, ts);
      ReadsMembers(c, members, rest, map[]);
      NoMembersFirst(c, members);
    hide ReadContent, ReadArray, ReadStruct, PieceTokens, ItemTokens, MemberTokens, ItemsMean, MembersMean, TextMeans;
  }

  lemma ArrayOpens(c: Base64, lead: Stream, ts: Stream)
    requires BetweenItems(lead)
    ensures ReadContent(c, [Start("array")] + (lead + ts)) == ReadArray(c, ts, [])
  {
    ContentStarts(c, "array", lead + ts);
    ElementArray(c, lead + ts);
    ArraySkipsAll(c, lead, ts, []);
    hide ReadContent, ReadArray, Element;
  }

  lemma StructOpens(c: Base64, lead: Stream, ts: Stream)
    requires BetweenMembers(lead)
    ensures ReadContent(c, [Start("struct")] + (lead + ts)) == ReadStruct(c, ts, "", map[])
  {
    ContentStarts(c, "struct", lead + ts);
    ElementArray(c, lead + ts);
    StructSkipsAll(c, lead, ts, "", map[]);
    hide ReadContent, ReadStruct, Element;
  }

  lemma BareReads(c: Base64, text: string, rest: Stream)
    requires TrimSpace(text) != ""
    ensures ReadContent(c, [Chars(text)] + rest) == Ok((Str(TrimSpace(text)), rest))
  {
    Uncons(Chars(text), rest);
    hide TrimSpace;
  }

  lemma EmptyReads(c: Base64, rest: Stream)
    ensures ReadContent(c, [End("value")] + rest) == Ok((Str(""), rest))
  {
    Uncons(End("value"), rest);
  }

  lemma ReadsTyped(c: Base64, tag: string, pieces: seq<Piece>, rest: Stream)
    requires tag != "array" && tag != "struct"
    ensures ReadContent(c, [Start(tag)] + (PieceTokens(pieces) + ([End(tag)] + rest)))
         == Given(TextMeans(c, tag, Saying(pieces)), rest)
  {
    var ts := PieceTokens(pieces) + ([End(tag)] + rest);
    ReadsWhole(pieces, tag, rest);
    ContentStarts(c, tag, ts);
    TextElement(c, tag, ts, Saying(pieces), rest);
    hide ReadContent, Element, ReadText, TextMeans;
  }

  /** The items so far with those to come. */
  function MoreItems(acc: seq<Value>, m: Result<seq<Value>, Error>): Result<Value, Error> {
    match m
    case Err(e) => Err(e)
    case Ok(vs) => Ok(Arr(acc + vs))
  }

  lemma NothingFirst(c: Base64, items: seq<Item>)
    ensures MoreItems([], ItemsMean(c, items))
         == match ItemsMean(c, items) case Err(e) => Err(e) case Ok(vs) => Ok(Arr(vs))
  {
    if ItemsMean(c, items).Ok? {
      assert [] + ItemsMean(c, items).value == ItemsMean(c, items).value;
    }
    hide ItemsMean;
  }

  lemma ArrayTakes(c: Base64, ts: Stream, item: Decoded, acc: seq<Value>)
    requires ReadContent(c, ts) == item
    ensures item.Err? ==> ReadArray(c, [Start("value")] + ts, acc) == item
    ensures item.Ok? ==> ReadArray(c, [Start("value")] + ts, acc) == ReadArray(c, item.value.1, acc + [item.value.0])
  {
    Uncons(Start("value"), ts);
    hide ReadContent;
  }

  lemma ArrayCloses(c: Base64, rest: Stream, acc: seq<Value>)
    ensures ReadArray(c, [End("array")] + rest, acc) == Ok((Arr(acc), rest))
  {
    Uncons(End("array"), rest);
  }

  lemma {:induction false} ReadsItems(c: Base64, items: seq<Item>, rest: Stream, acc: seq<Value>)
    requires forall i | 0 <= i < |items| :: Proper(items[i].doc) && BetweenItems(items[i].after)
    ensures ReadArray(c, ItemTokens(items) + ([End("array")] + rest), acc)
         == Given(MoreItems(acc, ItemsMean(c, items)), rest)
    decreases items, 2
  {
    var close := [End("array")] + rest;
    if items == [] {
      assert ItemTokens(items) + close == close && acc + [] == acc;
      ArrayCloses(c, rest, acc);
    } else {
      var d, after := items[0].doc, items[0].after;
      var later := ItemTokens(items[1..]) + close;
      assert ItemTokens(items) + close == [Start("value")] + (Tokens(d) + (after + later));
      ReadsDoc(c, d, after + later);
      ArrayTakes(c, Tokens(d) + (after + later), Given(Means(c, d), after + later), acc);
      if Means(c, d).Ok? {
        var v := Means(c, d).value;
        ArraySkipsAll(c, after, later, acc + [v]);
        ReadsItems(c, items[1..], rest, acc + [v]);
        if ItemsMean(c, items[1..]).Ok? {
          assert acc + [v] + ItemsMean(c, items[1..]).value == acc + ([v] + ItemsMean(c, items[1..]).value);
        }
      }
      hide ReadArray, ReadContent, Tokens, ItemTokens;
    }
  }

  function MoreMembers(acc: map<string, Value>, m: Result<map<string, Value>, Error>): Result<Value, Error> {
    match m
    case Err(e) => Err(e)
    case Ok(fields) => Ok(Struct(acc + fields))
  }

  lemma NoMembersFirst(c: Base64, members: seq<Member>)
    ensures MoreMembers(map[], MembersMean(c, members))
         == match MembersMean(c, members) case Err(e) => Err(e) case Ok(fields) => Ok(Struct(fields))
  {
    if MembersMean(c, members).Ok? {
      assert map[] + MembersMean(c, members).value == MembersMean(c, members).value;
    }
    hide MembersMean;
  }

  lemma StructTakes(c: Base64, ts: Stream, name: string, item: Decoded, acc: map<string, Value>)
    requires ReadContent(c, ts) == item
    ensures item.Err? ==> ReadStruct(c, [Start("value")] + ts, name, acc) == item
    ensures item.Ok? ==>
      ReadStruct(c, [Start("value")] + ts, name, acc)
        == ReadStruct(c, item.value.1, "", if name == "" then acc else acc[name := item.value.0])
  {
    Uncons(Start("value"), ts);
    hide ReadContent;
  }

  lemma StructNames(c: Base64, pieces: seq<Piece>, ts: Stream, name: string, acc: map<string, Value>)
    ensures ReadStruct(c, [Start("name")] + (PieceTokens(pieces) + ([End("name")] + ts)), name, acc)
         == ReadStruct(c, ts, Saying(pieces), acc)
  {
    var inner := PieceTokens(pieces) + ([End("name")] + ts);
    Uncons(Start("name"), inner);
    ReadsWhole(pieces, "name", ts);
    hide ReadText, PieceTokens, Saying;
  }

  lemma StructCloses(c: Base64, rest: Stream, name: string, acc: map<string, Value>)
    ensures ReadStruct(c, [End("struct")] + rest, name, acc) == Ok((Struct(acc), rest))
  {
    Uncons(End("struct"), rest);
  }

  lemma {:induction false} ReadsMembers(c: Base64, members: seq<Member>, rest: Stream, acc: map<string, Value>)
    requires forall i | 0 <= i < |members| ::
      Proper(members[i].doc) && BetweenMembers(members[i].mid) && BetweenMembers(members[i].after)
    ensures ReadStruct(c, MemberTokens(members) + ([End("struct")] + rest), "", acc)
         == Given(MoreMembers(acc, MembersMean(c, members)), rest)
    decreases members, 2
  {
    var close := [End("struct")] + rest;
    if members == [] {
      assert MemberTokens(members) + close == close && acc + map[] == acc;
      StructCloses(c, rest, "", acc);
    } else {
      var m := members[0];
      var later := MemberTokens(members[1..]) + close;
      var value := [Start("value")] + (Tokens(m.doc) + (m.after + later));
      MemberOpens(members, close);
      StructNames(c, m.name, m.mid + value, "", acc);
      StructSkipsAll(c, m.mid, value, Saying(m.name), acc);
      ReadsDoc(c, m.doc, m.after + later);
      StructTakes(c, Tokens(m.doc) + (m.after + later), Saying(m.name), Given(Means(c, m.doc), m.after + later), acc);
      if Means(c, m.doc).Ok? {
        var v, name := Means(c, m.doc).value, Saying(m.name);
        var acc1 := if name == "" then acc else acc[name := v];
        StructSkipsAll(c, m.after, later, "", acc1);
        ReadsMembers(c, members[1..], rest, acc1);
        if MembersMean(c, members[1..]).Ok? {
          LaterCounts(acc, name, v, MembersMean(c, members[1..]).value);
        }
      }
      hide ReadStruct, ReadContent, Tokens, MemberTokens;
    }
  }

  lemma MemberOpens(members: seq<Member>, close: Stream)
    requires members != []
    ensures var m := members[0];
      MemberTokens(members) + close
        == [Start("name")] + (PieceTokens(m.name) + ([End("name")] + (m.mid
             + ([Start("value")] + (Tokens(m.doc) + (m.after + (MemberTokens(members[1..]) + close)))))))
  {
    hide PieceTokens, Tokens;
  }

  lemma LaterCounts(acc: map<string, Value>, name: string, v: Value, fields: map<string, Value>)
    ensures (if name == "" then acc else acc[name := v]) + fields
         == acc + ((if name == "" then map[] else map[name := v]) + fields)
  {
  }

  /** A whole value element, whatever precedes it but a start tag, and whatever follows. */
  lemma ForeignReads(c: Base64, lead: Stream, ts: Stream, meaning: Result<Value, Error>, rest: Stream)
    requires Denotes(c, ts, meaning) && forall i | 0 <= i < |lead| :: !lead[i].Start?
    ensures ReadValue(c, lead + ([Start("value")] + (ts + rest))) == Given(meaning, rest)
  {
    var d :| Proper(d) && Tokens(d) == ts && Means(c, d) == meaning;
    ReadsDoc(c, d, rest);
    LeadSkips(c, lead, [Start("value")] + (ts + rest));
    Uncons(Start("value"), ts + rest);
    hide ReadContent, Tokens, Means;
  }

  lemma {:induction false} LeadSkips(c: Base64, lead: Stream, ts: Stream)
    requires forall i | 0 <= i < |lead| :: !lead[i].Start?
    ensures ReadValue(c, lead + ts) == ReadValue(c, ts)
  {
    if lead == [] {
      assert lead + ts == ts;
    } else {
      assert (lead + ts)[0] == lead[0] && (lead + ts)[1..] == lead[1..] + ts;
      LeadSkips(c, lead[1..], ts);
      hide ReadContent, Element;
    }
  }

  // ---- A document cut short -------------------------------------------------------------------

  /** All elements with text in the document have one of the known types. */
  predicate KnownTypes(d: Doc)
    decreases d
  {
    match d
    case Typed(_, tag, _) => tag in {"string", "int", "i4", "i8", "boolean", "base64"}
    case Array(_, _, items) => forall i | 0 <= i < |items| :: KnownTypes(items[i].doc)
    case Record(_, _, members) => forall i | 0 <= i < |members| :: KnownTypes(members[i].doc)
    case _ => true
  }

  /** A prefix of two streams is one of the first, or the first and a prefix of the second. */
  lemma CutBetween(p: Stream, a: Stream, b: Stream)
    requires p <= a + b
    ensures |p| <= |a| ==> p <= a
    ensures |p| >= |a| ==> p == a + p[|a|..] && p[|a|..] <= b
  {
  }

  lemma FirstToken(p: Stream, t: Token, ts: Stream)
    requires p <= [t] + ts && p != []
    ensures p == [t] + p[1..] && p[1..] <= ts
  {
  }

  lemma FirstPiece(pieces: seq<Piece>, p: Stream)
    requires p <= PieceTokens(pieces) && p != []
    ensures pieces != []
    ensures var later := PieceTokens(pieces[1..]);
      match pieces[0]
      case Said(t) => p == [Chars(t)] + p[1..] && p[1..] <= later
      case Remark => p == [Misc] + p[1..] && p[1..] <= later
      case Inner(tag, inside) => p == [Start(tag)] + p[1..] && p[1..] <= PieceTokens(inside) + ([End(tag)] + later)
  {
    PiecesOpen(pieces, []);
    var later := PieceTokens(pieces[1..]);
    assert PieceTokens(pieces) + [] == PieceTokens(pieces) && later + [] == later;
    hide PieceTokens;
    match pieces[0]
    case Said(t) => FirstToken(p, Chars(t), later);
    case Remark => FirstToken(p, Misc, later);
    case Inner(tag, inside) => FirstToken(p, Start(tag), PieceTokens(inside) + ([End(tag)] + later));
  }

  lemma {:induction false} CutPieces(pieces: seq<Piece>, p: Stream, depth: nat, acc: string)
    requires p <= PieceTokens(pieces)
    ensures ReadText(p, depth, acc).Err?
    decreases pieces
  {
    if p != [] {
      FirstPiece(pieces, p);
      hide ReadText, PieceTokens;
      match pieces[0]
      case Said(t) =>
        TextToken(Chars(t), p[1..], depth, acc);
        CutPieces(pieces[1..], p[1..], depth, if depth == 0 then acc + t else acc);
      case Remark =>
        TextToken(Misc, p[1..], depth, acc);
        CutPieces(pieces[1..], p[1..], depth, acc);
      case Inner(tag, inside) =>
        TextToken(Start(tag), p[1..], depth, acc);
        CutInner(pieces, tag, inside, p[1..], depth, acc);
    }
  }

  lemma {:induction false} CutInner(
    pieces: seq<Piece>, tag: string, inside: seq<Piece>, q: Stream, depth: nat, acc: string)
    requires pieces != [] && pieces[0] == Inner(tag, inside)
    requires q <= PieceTokens(inside) + ([End(tag)] + PieceTokens(pieces[1..]))
    ensures ReadText(q, depth + 1, acc).Err?
    decreases pieces, 0
  {
    var later := PieceTokens(pieces[1..]);
    CutBetween(q, PieceTokens(inside), [End(tag)] + later);
    hide ReadText, PieceTokens;
    if |q| <= |PieceTokens(inside)| {
      CutPieces(inside, q, depth + 1, acc);
    } else {
      var r := q[|PieceTokens(inside)|..];
      ReadsPieces(inside, r, depth + 1, acc);
      assert r == [End(tag)] + r[1..];
      TextToken(End(tag), r[1..], depth + 1, acc);
      CutPieces(pieces[1..], r[1..], depth, acc);
    }
  }

  lemma CutEmpty(c: Base64, name: string, acc: seq<Value>, fields: map<string, Value>)
    ensures ReadContent(c, []).Err? && ReadArray(c, [], acc).Err? && ReadStruct(c, [], name, fields).Err?
  {
  }

  lemma CutGaps(c: Base64, p: Stream, name: string, acc: seq<Value>, fields: map<string, Value>)
    ensures Quiet(p) ==> ReadContent(c, p).Err?
    ensures BetweenItems(p) ==> ReadArray(c, p, acc).Err?
    ensures BetweenMembers(p) ==> ReadStruct(c, p, name, fields).Err?
  {
    assert p + [] == p;
    CutEmpty(c, name, acc, fields);
    if Quiet(p) { ContentSkips(c, p, []); }
    if BetweenItems(p) { ArraySkipsAll(c, p, [], acc); }
    if BetweenMembers(p) { StructSkipsAll(c, p, [], name, fields); }
    hide ReadContent, ReadArray, ReadStruct;
  }

  lemma UnendedElement(c: Base64, tag: string, ts: Stream)
    requires tag in {"string", "int", "i4", "i8", "boolean", "base64"} && ReadText(ts, 0, "").Err?
    ensures Element(c, tag, ts).Err?
  {
    hide ReadText;
  }

  /** The exception: an element of an unknown type that is cut short is taken for an empty string. */
  lemma UnknownTypeCut(c: Base64, tag: string, pieces: seq<Piece>, p: Stream)
    requires tag !in {"string", "int", "i4", "i8", "boolean", "base64", "array", "struct"}
    requires p <= PieceTokens(pieces)
    ensures ReadContent(c, [Start(tag)] + p) == Ok((Str(""), []))
  {
    CutPieces(pieces, p, 0, "");
    ContentStarts(c, tag, p);
    hide ReadContent, ReadText, PieceTokens;
  }

  /** A document cut short is an error, wherever it is cut, when the types in it are known. */
  lemma {:induction false} CutDoc(c: Base64, d: Doc, p: Stream)
    requires Proper(d) && KnownTypes(d) && p < Tokens(d)
    ensures ReadContent(c, p).Err?
    decreases d, 1
  {
    CutBetween(p, d.before, Body(d));
    if |p| <= |d.before| {
      CutGaps(c, p, "", [], map[]);
    } else {
      var q := p[|d.before|..];
      ContentSkips(c, d.before, q);
      CutBody(c, d, q);
      hide ReadContent, Body;
    }
  }

  lemma {:induction false} CutBody(c: Base64, d: Doc, q: Stream)
    requires Proper(d) && KnownTypes(d) && q < Body(d)
    ensures ReadContent(c, q).Err?
    decreases d, 0
  {
    if q == [] {
      CutEmpty(c, "", [], map[]);
    } else {
      assert !d.Bare? && !d.Nothing?;
      var r := q[1..];
      assert q == [q[0]] + r;
      match d
      case Typed(_, tag, pieces) =>
        assert q[0] == Start(tag) && r < PieceTokens(pieces) + [End(tag)];
        CutBetween(r, PieceTokens(pieces), [End(tag)]);
        CutPieces(pieces, r, 0, "");
        ContentStarts(c, tag, r);
        UnendedElement(c, tag, r);
      case Array(_, lead, items) =>
        assert q[0] == Start("array") && r < lead + (ItemTokens(items) + [End("array")]);
        CutArray(c, lead, items, r);
      case Record(_, lead, members) =>
        assert q[0] == Start("struct") && r < lead + (MemberTokens(members) + [End("struct")]);
        CutRecord(c, lead, members, r);
      hide ReadContent, Element, ReadText, PieceTokens, ItemTokens, MemberTokens;
    }
  }

  lemma {:induction false} CutArray(c: Base64, lead: Stream, items: seq<Item>, r: Stream)
    requires BetweenItems(lead) && r < lead + (ItemTokens(items) + [End("array")])
    requires forall i | 0 <= i < |items| ::
      Proper(items[i].doc) && KnownTypes(items[i].doc) && BetweenItems(items[i].after)
    ensures ReadContent(c, [Start("array")] + r).Err?
    decreases items, 3
  {
    ContentStarts(c, "array", r);
    ElementArray(c, r);
    CutBetween(r, lead, ItemTokens(items) + [End("array")]);
    if |r| <= |lead| {
      CutGaps(c, r, "", [], map[]);
    } else {
      var r2 := r[|lead|..];
      ArraySkipsAll(c, lead, r2, []);
      CutBetween(r2, ItemTokens(items), [End("array")]);
      CutItems(c, items, r2, []);
    }
    hide ReadContent, ReadArray, Element, ItemTokens;
  }

  lemma {:induction false} CutItems(c: Base64, items: seq<Item>, p: Stream, acc: seq<Value>)
    requires p <= ItemTokens(items)
    requires forall i | 0 <= i < |items| ::
      Proper(items[i].doc) && KnownTypes(items[i].doc) && BetweenItems(items[i].after)
    ensures ReadArray(c, p, acc).Err?
    decreases items, 2
  {
    if p == [] {
      CutEmpty(c, "", acc, map[]);
    } else {
      FirstItem(items, p);
      CutItem(c, items, p[1..], acc);
      hide ReadArray, ItemTokens;
    }
  }

  lemma {:induction false} CutItem(c: Base64, items: seq<Item>, q: Stream, acc: seq<Value>)
    requires items != [] && q <= Tokens(items[0].doc) + (items[0].after + ItemTokens(items[1..]))
    requires forall i | 0 <= i < |items| ::
      Proper(items[i].doc) && KnownTypes(items[i].doc) && BetweenItems(items[i].after)
    ensures ReadArray(c, [Start("value")] + q, acc).Err?
    decreases items, 1
  {
    hide ReadArray, ReadContent, Tokens, ItemTokens, Means, BetweenItems, Proper, KnownTypes;
    var d, after, later := items[0].doc, items[0].after, ItemTokens(items[1..]);
    CutBetween(q, Tokens(d), after + later);
    if |q| < |Tokens(d)| {
      CutDoc(c, d, q);
      ArrayTakes(c, q, ReadContent(c, q), acc);
    } else {
      var q2 := q[|Tokens(d)|..];
      ReadsDoc(c, d, q2);
      ArrayTakes(c, q, Given(Means(c, d), q2), acc);
      if Means(c, d).Ok? {
        var acc1 := acc + [Means(c, d).value];
        CutBetween(q2, after, later);
        if |q2| <= |after| {
          PrefixBetweenItems(after, q2);
          CutGaps(c, q2, "", acc1, map[]);
        } else {
          ArraySkipsAll(c, after, q2[|after|..], acc1);
          CutItems(c, items[1..], q2[|after|..], acc1);
        }
      }
    }
  }

  lemma PrefixBetweenItems(gap: Stream, p: Stream)
    requires BetweenItems(gap) && p <= gap
    ensures BetweenItems(p)
  {
  }

  lemma FirstItem(items: seq<Item>, p: Stream)
    requires p <= ItemTokens(items) && p != []
    ensures items != [] && p == [Start("value")] + p[1..]
    ensures p[1..] <= Tokens(items[0].doc) + (items[0].after + ItemTokens(items[1..]))
  {
    var ts := Tokens(items[0].doc) + (items[0].after + ItemTokens(items[1..]));
    assert ItemTokens(items) == [Start("value")] + ts;
    FirstToken(p, Start("value"), ts);
    hide Tokens;
  }

  lemma {:induction false} CutRecord(c: Base64, lead: Stream, members: seq<Member>, r: Stream)
    requires BetweenMembers(lead) && r < lead + (MemberTokens(members) + [End("struct")])
    requires forall i | 0 <= i < |members| ::
      && Proper(members[i].doc) && KnownTypes(members[i].doc)
      && BetweenMembers(members[i].mid) && BetweenMembers(members[i].after)
    ensures ReadContent(c, [Start("struct")] + r).Err?
    decreases members, 3
  {
    ContentStarts(c, "struct", r);
    ElementArray(c, r);
    CutBetween(r, lead, MemberTokens(members) + [End("struct")]);
    if |r| <= |lead| {
      CutGaps(c, r, "", [], map[]);
    } else {
      var r2 := r[|lead|..];
      StructSkipsAll(c, lead, r2, "", map[]);
      CutBetween(r2, MemberTokens(members), [End("struct")]);
      CutMembers(c, members, r2, map[]);
    }
    hide ReadContent, ReadStruct, Element, MemberTokens;
  }

  lemma {:induction false} CutMembers(c: Base64, members: seq<Member>, p: Stream, acc: map<string, Value>)
    requires p <= MemberTokens(members)
    requires forall i | 0 <= i < |members| ::
      && Proper(members[i].doc) && KnownTypes(members[i].doc)
      && BetweenMembers(members[i].mid) && BetweenMembers(members[i].after)
    ensures ReadStruct(c, p, "", acc).Err?
    decreases members, 2
  {
    if p == [] {
      CutEmpty(c, "", [], acc);
    } else {
      FirstMember(members, p);
      hide ReadStruct, ReadContent, Tokens, MemberTokens, PieceTokens, ReadText, BetweenMembers;
      var m := members[0];
      var value := m.mid + ([Start("value")] + (Tokens(m.doc) + (m.after + MemberTokens(members[1..]))));
      var q := p[1..];
      CutBetween(q, PieceTokens(m.name), [End("name")] + value);
      if |q| <= |PieceTokens(m.name)| {
        CutPieces(m.name, q, 0, "");
        UnendedName(c, q, acc);
      } else {
        var q2 := q[|PieceTokens(m.name)|..];
        FirstToken(q2, End("name"), value);
        StructNames(c, m.name, q2[1..], "", acc);
        CutMember(c, members, q2[1..], acc);
      }
    }
  }

  lemma FirstMember(members: seq<Member>, p: Stream)
    requires p <= MemberTokens(members) && p != []
    ensures members != [] && p == [Start("name")] + p[1..]
    ensures var m := members[0];
      p[1..] <= PieceTokens(m.name) + ([End("name")] + (m.mid
        + ([Start("value")] + (Tokens(m.doc) + (m.after + MemberTokens(members[1..]))))))
  {
    var m := members[0];
    var ts := PieceTokens(m.name) + ([End("name")] + (m.mid
      + ([Start("value")] + (Tokens(m.doc) + (m.after + MemberTokens(members[1..]))))));
    assert MemberTokens(members) == [Start("name")] + ts;
    FirstToken(p, Start("name"), ts);
    hide Tokens, PieceTokens;
  }

  lemma UnendedName(c: Base64, ts: Stream, acc: map<string, Value>)
    requires ReadText(ts, 0, "").Err?
    ensures ReadStruct(c, [Start("name")] + ts, "", acc).Err?
  {
    Uncons(Start("name"), ts);
    hide ReadText;
  }

  lemma {:induction false} CutMember(c: Base64, members: seq<Member>, q: Stream, acc: map<string, Value>)
    requires members != []
    requires var m := members[0];
      q <= m.mid + ([Start("value")] + (Tokens(m.doc) + (m.after + MemberTokens(members[1..]))))
    requires forall i | 0 <= i < |members| ::
      && Proper(members[i].doc) && KnownTypes(members[i].doc)
      && BetweenMembers(members[i].mid) && BetweenMembers(members[i].after)
    ensures ReadStruct(c, q, Saying(members[0].name), acc).Err?
    decreases members, 1
  {
    hide ReadStruct, Tokens, MemberTokens, Saying, BetweenMembers, Proper, KnownTypes;
    var m, name := members[0], Saying(members[0].name);
    var ts := Tokens(m.doc) + (m.after + MemberTokens(members[1..]));
    CutBetween(q, m.mid, [Start("value")] + ts);
    if |q| <= |m.mid| {
      PrefixBetween(m.mid, q);
      CutGaps(c, q, name, [], acc);
    } else {
      var r := q[|m.mid|..];
      StructSkipsAll(c, m.mid, r, name, acc);
      FirstToken(r, Start("value"), ts);
      CutValue(c, members, r[1..], acc);
    }
  }

  lemma PrefixBetween(gap: Stream, p: Stream)
    requires BetweenMembers(gap) && p <= gap
    ensures BetweenMembers(p)
  {
  }

  lemma {:induction false} CutValue(c: Base64, members: seq<Member>, r: Stream, acc: map<string, Value>)
    requires members != []
    requires r <= Tokens(members[0].doc) + (members[0].after + MemberTokens(members[1..]))
    requires forall i | 0 <= i < |members| ::
      && Proper(members[i].doc) && KnownTypes(members[i].doc)
      && BetweenMembers(members[i].mid) && BetweenMembers(members[i].after)
    ensures ReadStruct(c, [Start("value")] + r, Saying(members[0].name), acc).Err?
    decreases members, 0
  {
    hide ReadStruct, ReadContent, Tokens, MemberTokens, Means, Saying, BetweenMembers, Proper, KnownTypes;
    var m, name := members[0], Saying(members[0].name);
    var later := MemberTokens(members[1..]);
    CutBetween(r, Tokens(m.doc), m.after + later);
    if |r| < |Tokens(m.doc)| {
      CutDoc(c, m.doc, r);
      StructTakes(c, r, name, ReadContent(c, r), acc);
    } else {
      var r2 := r[|Tokens(m.doc)|..];
      ReadsDoc(c, m.doc, r2);
      StructTakes(c, r, name, Given(Means(c, m.doc), r2), acc);
      if Means(c, m.doc).Ok? {
        var acc1 := if name == "" then acc else acc[name := Means(c, m.doc).value];
        CutBetween(r2, m.after, later);
        if |r2| <= |m.after| {
          PrefixBetween(m.after, r2);
          CutGaps(c, r2, "", [], acc1);
        } else {
          StructSkipsAll(c, m.after, r2[|m.after|..], "", acc1);
          CutMembers(c, members[1..], r2[|m.after|..], acc1);
        }
      }
    }
  }

  // ---- A few documents --------------------------------------------------------------------------

  /** Text without a type is a string, trimmed. */
  lemma BareText(c: Base64, rest: Stream)
    ensures ReadContent(c, [Chars(" abc "), End("value")] + rest) == Ok((Str("abc"), [End("value")] + rest))
  {
    PaddedText();
    hide TrimSpace;
    BareReads(c, " abc ", [End("value")] + rest);
    assert [Chars(" abc ")] + ([End("value")] + rest) == [Chars(" abc "), End("value")] + rest;
    hide ReadContent;
  }

  /** Each of the three integer types is a number, signs allowed. */
  lemma AnyInteger(c: Base64, n: nat, tag: string, rest: Stream)
    requires tag in {"int", "i4", "i8"} && n <= MAX_INT64
    ensures ReadContent(c, [Start(tag), Chars("+" + NatText(n)), End(tag)] + rest) == Ok((Num(Float64(n)), rest))
  {
    var text := "+" + NatText(n);
    SignedText(n);
    OnePiece(text);
    ReadsTyped(c, tag, [Said(text)], rest);
    hide ReadContent, Float64, NatText, TrimSpace, ParseInt, PieceTokens, Saying;
    assert [Start(tag)] + ([Chars(text)] + ([End(tag)] + rest)) == [Start(tag), Chars(text), End(tag)] + rest;
  }

  lemma OnePiece(text: string)
    ensures PieceTokens([Said(text)]) == [Chars(text)] && Saying([Said(text)]) == text
  {
    assert [Said(text)][1..] == [];
    assert PieceTokens([]) == [] && Saying([]) == "";
  }

  lemma PaddedText()
    ensures TrimSpace(" abc ") == "abc"
  {
    assert " abc "[1..] == "abc " && TrimLeft("abc ") == "abc ";
    assert "abc "[..3] == "abc" && TrimRight("abc") == "abc";
  }

  lemma SignedText(n: nat)
    requires n <= MAX_INT64
    ensures ParseInt(TrimSpace("+" + NatText(n))) == Some(n)
  {
    var text := "+" + NatText(n);
    ParseNatText(n);
    assert text[1..] == NatText(n);
    assert Trimmed(text);
    hide ParseDigits, NatText;
  }
}
