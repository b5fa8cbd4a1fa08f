/** The parse facade over a parsed message: its text and HTML bodies, its
    attachments keyed by file name, and its boundary. Bodies and attachments
    are gathered with the Go part iterator. */
module Parsing {
  import opened Util
  import opened Objects
  import opened ContentDispositions
  import opened Messages
  import opened PartIters

  /** A charset converter: (text, from charset, to charset) to converted
      text. The converter is a foreign library, so it is a parameter. */
  type Converter = (string, string, string) -> string

  /** rawPart: the part's content written into a new memory stream, as
      that stream's Bytes() hands it back. Bytes() copies the buffer only
      when it holds more than one byte, so content of one byte (or none)
      comes back empty. */
  function RawPart(o: Obj): (r: string)
    ensures |r| != 1
    ensures (o.Part? || o.Partial?) && |Data(o.content)| > 1 ==> r == Data(o.content)
    ensures !((o.Part? || o.Partial?) && |Data(o.content)| > 1) ==> r == ""
  {
    var written := if o.Part? || o.Partial? then Data(o.content) else "";
    if |written| > 1 then written else ""
  }

  /** The "charset" parameter of a part's content type, "" when absent. */
  function Charset(o: Obj): string {
    if o.info.contentType.Some? then Params.Parameter(o.info.contentType.value.params, "charset") else ""
  }

  /** parsePart: a part matches when its "type/subtype" is `contentType`
      and it has no file name; its payload is its raw content, converted to
      utf-8 from its declared charset unless that already is utf-8 in some
      letter case. A part that does not match gives ("", false). */
  function ParsePart(o: Obj, contentType: string, convert: Converter): (r: (string, bool))
    ensures r.1 <==> MimeTypeOf(Some(o)) == contentType && Filename(o) == ""
    ensures !r.1 ==> r.0 == ""
  {
    if MimeTypeOf(Some(o)) == contentType && Filename(o) == "" then
      var source := Lower(Charset(o));
      (if source != "utf-8" then convert(RawPart(o), source, "utf-8") else RawPart(o), true)
    else ("", false)
  }

  /** The payload of a matching part is its raw content, as it is when the
      declared charset is utf-8 in any letter case, and converted from that
      charset to utf-8 otherwise. */
  lemma ParsePartPayload(o: Obj, contentType: string, convert: Converter)
    requires ParsePart(o, contentType, convert).1
    ensures Lower(Charset(o)) == "utf-8" ==> ParsePart(o, contentType, convert).0 == RawPart(o)
    ensures Lower(Charset(o)) != "utf-8" ==>
      ParsePart(o, contentType, convert).0 == convert(RawPart(o), Lower(Charset(o)), "utf-8")
  {
  }

  /** What one item the part loop shows adds to a body: the payload of a
      non-nil Go Part that matches (a part that does not match has the empty
      payload), nothing otherwise. */
  function Contribution(item: Option<Obj>, contentType: string, convert: Converter): string {
    if IsGoPart(item) then ParsePart(item.value, contentType, convert).0 else ""
  }

  /** Contribution for a fixed content type and converter. */
  function Contributions(contentType: string, convert: Converter): Option<Obj> -> string {
    item => Contribution(item, contentType, convert)
  }

  /** What `f` gives for each item, concatenated in order. */
  function BodyText(items: seq<Option<Obj>>, f: Option<Obj> -> string): string {
    if items == [] then ""
    else BodyText(items[..|items| - 1], f) + f(items[|items| - 1])
  }

  /** parseBody for a message with root `root`: a Part root is parsed on its
      own; for a Multipart root, the matching parts' payloads are
      concatenated in the order the part loop shows them, and the result is
      ok when it is not empty; any other root gives ("", false). */
  function BodyOf(root: Option<Obj>, contentType: string, convert: Converter): (r: (string, bool))
    ensures IsGoPart(root) ==> r == ParsePart(root.value, contentType, convert)
    ensures !IsGoPart(root) ==> (r.1 <==> r.0 != "")
    ensures !IsGoPart(root) && !IsGoMultipart(root) ==> r == ("", false)
  {
    if IsGoPart(root) then ParsePart(root.value, contentType, convert)
    else if IsGoMultipart(root) then
      var s := BodyText(Yields(root), Contributions(contentType, convert));
      (s, |s| > 0)
    else ("", false)
  }

  /** A Go Part whose disposition is present and marks an attachment. */
  predicate IsAttachmentPart(item: Option<Obj>) {
    && IsGoPart(item)
    && item.value.info.disposition.Some?
    && ContentDisposition(item.value.info.disposition).IsAttachment()
  }

  /** The entry an attachment part files: its content under its file
      name; nothing for any other item. */
  function Filing(item: Option<Obj>): Option<(string, string)> {
    if IsAttachmentPart(item) then Some((Filename(item.value), RawPart(item.value))) else None
  }

  /** The entries `f` files for the items, added to a map one by one, so a
      later entry with the same key replaces an earlier one. */
  function Collected(items: seq<Option<Obj>>, f: Option<Obj> -> Option<(string, string)>): map<string, string> {
    if items == [] then map[]
    else
      var m := Collected(items[..|items| - 1], f);
      var entry := f(items[|items| - 1]);
      if entry.Some? then m[entry.value.0 := entry.value.1] else m
  }

  /** Attachment for a message with root `root`: a Part root gives at most
      its own entry; a Multipart root gives the attachments the part loop
      shows; any other root gives nothing. */
  function AttachmentsOf(root: Option<Obj>): (r: map<string, string>)
    ensures IsGoPart(root) ==> |r| <= 1
    ensures IsGoPart(root) ==> (r != map[] <==> IsAttachmentPart(root))
    ensures IsGoPart(root) && IsAttachmentPart(root) ==> r == map[Filename(root.value) := RawPart(root.value)]
    ensures !IsGoPart(root) && !IsGoMultipart(root) ==> r == map[]
  {
    if IsGoPart(root) then
      if IsAttachmentPart(root) then map[Filename(root.value) := RawPart(root.value)] else map[]
    else if IsGoMultipart(root) then Collected(Yields(root), Filing)
    else map[]
  }

  /** Splitting off the last item of a body. */
  lemma {:induction false} BodyTextStep(seen: seq<Option<Obj>>, item: Option<Obj>, f: Option<Obj> -> string)
    ensures BodyText(seen + [item], f) == BodyText(seen, f) + f(item)
  {
    assert (seen + [item])[..|seen|] == seen;
  }

  /** Splitting off the last item of an attachment map. */
  lemma {:induction false} CollectedStep(seen: seq<Option<Obj>>, item: Option<Obj>, f: Option<Obj> -> Option<(string, string)>)
    ensures Collected(seen + [item], f) ==
      if f(item).Some? then Collected(seen, f)[f(item).value.0 := f(item).value.1] else Collected(seen, f)
  {
    assert (seen + [item])[..|seen|] == seen;
  }

  /** A body is empty exactly when no item contributes to it. */
  lemma {:induction false} BodyTextEmpty(items: seq<Option<Obj>>, f: Option<Obj> -> string)
    ensures BodyText(items, f) == "" <==> forall i :: 0 <= i < |items| ==> f(items[i]) == ""
  {
    if items != [] {
      var front := items[..|items| - 1];
      BodyTextEmpty(front, f);
      assert forall i :: 0 <= i < |front| ==> front[i] == items[i];
    }
  }

  /** The multipart container the part loop shows first adds nothing to a
      body, and nothing to the attachments: it is not a Go Part. */
  lemma ContainerContributesNothing(root: Option<Obj>, contentType: string, convert: Converter)
    requires IsGoMultipart(root)
    ensures Contribution(root, contentType, convert) == ""
    ensures !IsAttachmentPart(root)
  {
    GoTypeAssertions(root);
  }

  /** The keys of the map are exactly the keys of the entries filed. */
  lemma {:induction false} CollectedKeys(items: seq<Option<Obj>>, f: Option<Obj> -> Option<(string, string)>, k: string)
    ensures k in Collected(items, f) <==> exists i :: 0 <= i < |items| && f(items[i]).Some? && f(items[i]).value.0 == k
  {
    if items != [] {
      var n := |items| - 1;
      var front := items[..n];
      CollectedKeys(front, f, k);
      if exists i :: 0 <= i < |front| && f(front[i]).Some? && f(front[i]).value.0 == k {
        var i :| 0 <= i < |front| && f(front[i]).Some? && f(front[i]).value.0 == k;
        assert items[i] == front[i];
      }
      if exists i :: 0 <= i < |items| && f(items[i]).Some? && f(items[i]).value.0 == k {
        var i :| 0 <= i < |items| && f(items[i]).Some? && f(items[i]).value.0 == k;
        if i < n {
          assert front[i] == items[i];
        }
      }
    }
  }

  /** The value under a key is the value of the last entry filed under
      it. */
  lemma {:induction false} CollectedLastWins(items: seq<Option<Obj>>, f: Option<Obj> -> Option<(string, string)>, i: nat)
    requires i < |items| && f(items[i]).Some?
    requires forall j :: i < j < |items| && f(items[j]).Some? ==> f(items[j]).value.0 != f(items[i]).value.0
    ensures f(items[i]).value.0 in Collected(items, f)
    ensures Collected(items, f)[f(items[i]).value.0] == f(items[i]).value.1
  {
    var n := |items| - 1;
    var front := items[..n];
    if i < n {
      assert front[i] == items[i];
      forall j | i < j < |front| && f(front[j]).Some?
        ensures f(front[j]).value.0 != f(front[i]).value.0
      {
        assert front[j] == items[j];
      }
      CollectedLastWins(front, f, i);
    }
  }

  /** Filing the items the part loop shows gives a key for every file name
      of an attachment part among them and no other key. */
  lemma AttachmentKeys(items: seq<Option<Obj>>, k: string)
    ensures k in Collected(items, Filing) <==>
      exists i :: 0 <= i < |items| && IsAttachmentPart(items[i]) && Filename(items[i].value) == k
  {
    CollectedKeys(items, Filing, k);
    forall i | 0 <= i < |items|
      ensures (Filing(items[i]).Some? && Filing(items[i]).value.0 == k) <==>
        (IsAttachmentPart(items[i]) && Filename(items[i].value) == k)
    {
    }
  }

  /** Under the file name of an attachment part that no later attachment
      part shares, the filed content is that part's content. */
  lemma AttachmentLastWins(items: seq<Option<Obj>>, i: nat)
    requires i < |items| && IsAttachmentPart(items[i])
    requires forall j :: i < j < |items| && IsAttachmentPart(items[j]) ==>
      Filename(items[j].value) != Filename(items[i].value)
    ensures Filename(items[i].value) in Collected(items, Filing)
    ensures Collected(items, Filing)[Filename(items[i].value)] == RawPart(items[i].value)
  {
    forall j | i < j < |items| && Filing(items[j]).Some?
      ensures Filing(items[j]).value.0 != Filing(items[i]).value.0
    {
    }
    CollectedLastWins(items, Filing, i);
  }

  /** The parse facade: a handle on a parsed message. */
  class Parse {
    const message: Message

    constructor (m: Message)
      ensures message == m
    {
      message := m;
    }

    /** parseBody: a Part root is parsed on its own, a Multipart root by
        the loop over its parts. */
    method ParseBody(contentType: string, convert: Converter) returns (payload: string, ok: bool)
      ensures (payload, ok) == BodyOf(message.mimePart, contentType, convert)
    {
      var container := message.mimePart;
      payload := "";
      if IsGoPart(container) {
        var r := ParsePart(container.value, contentType, convert);
        return r.0, r.1;
      } else if IsGoMultipart(container) {
        payload := PartsPayload(contentType, convert);
      }
      ok := |payload| > 0;
    }

    /** The loop of parseBody over the part iterator: the payloads of the
        matching parts, concatenated in the order the loop shows them. */
    method PartsPayload(contentType: string, convert: Converter) returns (payload: string)
      ensures payload == BodyText(Yields(message.mimePart), Contributions(contentType, convert))
    {
      payload := "";
      ghost var f := Contributions(contentType, convert);
      var it := new PartIter(message);
      ghost var all := Yields(message.mimePart);
      ghost var seen: seq<Option<Obj>> := [];
      while it.HasNext()
        invariant fresh(it) && fresh(it.native)
        invariant it.Valid()
        invariant seen + it.Rest() == all
        invariant payload == BodyText(seen, f)
        decreases |it.Rest()|
      {
        ghost var rest := it.Rest();
        var item := it.Current();
        var add := ItemPayload(item, contentType, convert);
        payload := payload + add;
        BodyTextStep(seen, item, f);
        ConsumeOne(seen, item, rest, all);
        seen := seen + [item];
        it.Next();
      }
      assert seen == all;
    }

    /** One turn of the parseBody loop: a non-nil Go Part that matches adds
        its payload, anything else adds nothing. */
    method ItemPayload(item: Option<Obj>, contentType: string, convert: Converter) returns (add: string)
      ensures add == Contributions(contentType, convert)(item)
    {
      add := "";
      if item.Some? && IsGoPart(item) {
        var part := item.value;
        var r := ParsePart(part, contentType, convert);
        if r.1 {
          add := r.0;
        }
      }
    }

    /** Text: the text/plain body. */
    method Text(convert: Converter) returns (r: (string, bool))
      ensures r == BodyOf(message.mimePart, "text/plain", convert)
    {
      var payload, ok := ParseBody("text/plain", convert);
      r := (payload, ok);
    }

    /** Html: the text/html body. */
    method Html(convert: Converter) returns (r: (string, bool))
      ensures r == BodyOf(message.mimePart, "text/html", convert)
    {
      var payload, ok := ParseBody("text/html", convert);
      r := (payload, ok);
    }

    /** Attachment: the attachment parts' contents by file name, gathered
        with the part iterator when the root is a multipart. */
    method Attachment() returns (payload: map<string, string>)
      ensures payload == AttachmentsOf(message.mimePart)
    {
      payload := map[];
      var container := message.mimePart;
      if IsGoPart(container) {
        var part := container.value;
        if part.info.disposition.Some? {
          var cd := ContentDisposition(part.info.disposition);
          if cd.IsAttachment() {
            payload := payload[Filename(part) := RawPart(part)];
          }
        }
      } else if IsGoMultipart(container) {
        var it := new PartIter(message);
        ghost var all := Yields(message.mimePart);
        ghost var seen: seq<Option<Obj>> := [];
        while it.HasNext()
          invariant fresh(it) && fresh(it.native)
          invariant it.Valid()
          invariant seen + it.Rest() == all
          invariant payload == Collected(seen, Filing)
          decreases |it.Rest()|
        {
          ghost var rest := it.Rest();
          var item := it.Current();
          if IsGoPart(item) {
            var part := item.value;
            if part.info.disposition.Some? {
              var cd := ContentDisposition(part.info.disposition);
              if cd.IsAttachment() {
                payload := payload[Filename(part) := RawPart(part)];
              }
            }
          }
          CollectedStep(seen, item, Filing);
          ConsumeOne(seen, item, rest, all);
          seen := seen + [item];
          it.Next();
        }
        assert seen == all;
      }
    }

    /** Boundary: the root's boundary when the root is a multipart, ""
        otherwise. */
    function Boundary(): (r: string)
      reads message
      ensures IsGoMultipart(message.mimePart) ==> r == Objects.Boundary(message.mimePart.value)
      ensures !IsGoMultipart(message.mimePart) ==> r == ""
    {
      if IsGoMultipart(message.mimePart) then Objects.Boundary(message.mimePart.value) else ""
    }
  }

  /** "utf-8" is already lower case. */
  lemma LowerUtf8()
    ensures Lower("utf-8") == "utf-8"
  {
    var u := "utf-8";
    assert forall i :: 0 <= i < |u| ==> !('A' <= u[i] <= 'Z');
  }

  /** A leaf part of content type `t/s` with a charset and some text. */
  function TextPart(t: string, s: string, charset: string, text: string): Obj {
    Part(Info(Some(ContentType(t, s, Params.Param("charset", charset, Params.NoParam))), None, []),
         Some(DataWrapper(text, "", 0)))
  }

  /** A message whose root is a single utf-8 text/plain part: Text gives its
      content unconverted, Html finds nothing, and there are no attachments. */
  method TextOnlyExample(convert: Converter) returns (text: (string, bool), html: (string, bool), attachments: map<string, string>)
    ensures text == ("this is text only email", true)
    ensures html == ("", false)
    ensures attachments == map[]
  {
    var root := TextPart("text", "plain", "utf-8", "this is text only email");
    GoTypeAssertions(Some(root));
    var m := new Message();
    m.SetMimePart(Some(root));
    var p := new Parse(m);
    LowerUtf8();
    assert "text" + "/" + "plain" == "text/plain";
    assert "text/plain" != "text/html";
    ParsePartPayload(root, "text/plain", convert);
    text := p.Text(convert);
    html := p.Html(convert);
    attachments := p.Attachment();
  }

  /** A message whose root is a utf-8 text/plain part holding one byte:
      Text finds the part, but rawPart hands back nothing for it. */
  method OneByteTextExample(convert: Converter) returns (text: (string, bool))
    ensures text == ("", true)
  {
    var root := TextPart("text", "plain", "utf-8", "A");
    GoTypeAssertions(Some(root));
    var m := new Message();
    m.SetMimePart(Some(root));
    var p := new Parse(m);
    LowerUtf8();
    assert "text" + "/" + "plain" == "text/plain";
    ParsePartPayload(root, "text/plain", convert);
    text := p.Text(convert);
  }

  /** An attachment part named "a.txt" holding one byte. */
  function OneByteFile(): Obj {
    Part(Info(Some(ContentType("text", "plain", Params.NoParam)),
              Some(RawDisposition("attachment", Params.Param("filename", "a.txt", Params.NoParam))), []),
         Some(DataWrapper("A", "", 0)))
  }

  /** A one-byte attachment root is filed under its name, with empty
      content. */
  lemma OneByteAttachment()
    ensures AttachmentsOf(Some(OneByteFile())) == map["a.txt" := ""]
  {
    var o := OneByteFile();
    GoTypeAssertions(Some(o));
    assert IsAttachmentPart(Some(o));
    assert Filename(o) == "a.txt";
  }

  /** The parts of a multipart/mixed example: a latin-1 text/plain part
      and a PDF attachment named "a.pdf". */
  function LatinText(): Obj {
    TextPart("text", "plain", "iso-8859-1", "hola")
  }

  function PdfFile(): Obj {
    Part(Info(Some(ContentType("application", "pdf", Params.NoParam)),
              Some(RawDisposition("attachment", Params.Param("filename", "a.pdf", Params.NoParam))), []),
         Some(DataWrapper("%PDF", "base64", 0)))
  }

  function MixedRoot(): Obj {
    Obj.Multipart(Info(Some(ContentType("multipart", "mixed", Params.NoParam)), None, []), [LatinText(), PdfFile()])
  }

  /** The part loop over the example shows the multipart, then its two
      parts. */
  lemma MixedYields()
    ensures IsGoMultipart(Some(MixedRoot()))
    ensures Yields(Some(MixedRoot())) == [Some(MixedRoot()), Some(LatinText()), Some(PdfFile())]
  {
    var body, file := LatinText(), PdfFile();
    GoTypeAssertions(Some(MixedRoot()));
    assert [body, file][1..] == [file];
    assert [file][1..] == [];
    assert Flatten([file]) == [file];
  }

  /** The text part contributes its text converted from latin-1. */
  lemma LatinContribution(convert: Converter)
    ensures Contribution(Some(LatinText()), "text/plain", convert) == convert("hola", "iso-8859-1", "utf-8")
  {
    GoTypeAssertions(Some(LatinText()));
    assert "text" + "/" + "plain" == "text/plain";
    assert Lower("iso-8859-1") == "iso-8859-1" by {
      var l := "iso-8859-1";
      assert forall i :: 0 <= i < |l| ==> !('A' <= l[i] <= 'Z');
    }
    ParsePartPayload(LatinText(), "text/plain", convert);
  }

  /** The PDF part is not text/plain, so it contributes nothing. */
  lemma PdfContribution(convert: Converter)
    ensures Contribution(Some(PdfFile()), "text/plain", convert) == ""
  {
    assert MimeTypeOf(Some(PdfFile())) != "text/plain" by {
      assert MimeTypeOf(Some(PdfFile()))[0] == 'a';
    }
  }

  /** Only the text part contributes to the text/plain body. */
  lemma {:induction false} MixedText(convert: Converter)
    ensures BodyText([Some(MixedRoot()), Some(LatinText()), Some(PdfFile())], Contributions("text/plain", convert)) ==
      convert("hola", "iso-8859-1", "utf-8")
  {
    var root, body, file := Some(MixedRoot()), Some(LatinText()), Some(PdfFile());
    var f := Contributions("text/plain", convert);
    ContainerContributesNothing(root, "text/plain", convert);
    LatinContribution(convert);
    PdfContribution(convert);
    assert f(root) == "" && f(file) == "";
    assert f(body) == convert("hola", "iso-8859-1", "utf-8");
    BodyTextThree(root, body, file, f);
  }

  /** The body of three items is what `f` gives for each. */
  lemma {:induction false} BodyTextThree(a: Option<Obj>, b: Option<Obj>, c: Option<Obj>, f: Option<Obj> -> string)
    ensures BodyText([a, b, c], f) == f(a) + f(b) + f(c)
  {
    var s0: seq<Option<Obj>> := [];
    BodyTextStep(s0, a, f);
    var s1 := s0 + [a];
    BodyTextStep(s1, b, f);
    var s2 := s1 + [b];
    BodyTextStep(s2, c, f);
    assert s2 + [c] == [a, b, c];
  }

  /** Only the PDF part is an attachment; it is filed under its name. */
  lemma {:induction false} MixedAttachments()
    ensures Collected([Some(MixedRoot()), Some(LatinText()), Some(PdfFile())], Filing) == map["a.pdf" := "%PDF"]
  {
    var root, body, file := Some(MixedRoot()), Some(LatinText()), Some(PdfFile());
    GoTypeAssertions(root);
    assert Filing(root).None? && Filing(body).None?;
    assert Filing(file) == Some(("a.pdf", "%PDF"));
    var s0: seq<Option<Obj>> := [];
    CollectedStep(s0, root, Filing);
    var s1 := s0 + [root];
    CollectedStep(s1, body, Filing);
    var s2 := s1 + [body];
    CollectedStep(s2, file, Filing);
    assert s2 + [file] == [root, body, file];
  }

  /** A multipart/mixed message holding a latin-1 text/plain part and a
      named attachment: Text converts the text part from its charset, and
      Attachment files the attachment's content under its name. */
  method MultipartExample(convert: Converter) returns (text: (string, bool), attachments: map<string, string>)
    ensures text == (convert("hola", "iso-8859-1", "utf-8"), convert("hola", "iso-8859-1", "utf-8") != "")
    ensures attachments == map["a.pdf" := "%PDF"]
  {
    var m := new Message();
    MixedYields();
    m.SetMimePart(Some(MixedRoot()));
    var p := new Parse(m);
    MixedText(convert);
    MixedAttachments();
    text := p.Text(convert);
    attachments := p.Attachment();
  }
}
