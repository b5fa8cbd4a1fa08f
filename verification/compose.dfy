/** The composer: builds a new message from recipients, a subject and text
    parts, and renders it as text. One part becomes the message root on its
    own; from the second part on, the root is a multipart/mixed holding all
    parts in the order they were added. Each part's data sits in a memory
    stream that rendering reads, so rendering moves those streams to their
    end. */
module Composers {
  import opened Util
  import opened HeaderLists
  import opened Objects
  import opened Addresses
  import opened Messages
  import opened Multiparts

  /** The leaf part addPart builds: content type `t/s` and `data` in a new
      memory stream, wrapped with the transfer encoding `encoding`. */
  function DataPart(data: string, t: string, s: string, encoding: string): (o: Obj)
    ensures o.Part? && o.content == Some(DataWrapper(data, encoding, 0))
    ensures MimeTypeOf(Some(o)) == t + "/" + s
    ensures o.info.headers == [Header("Content-Type", t + "/" + s)]
  {
    var p := NewPartWithType(t, s);
    p.(content := Some(DataWrapper(data, encoding, 0)))
  }

  /** Read(Length()) on a content stream, as `part` calls it. Go makes a
      buffer as long as the whole stream and takes the address of its first
      byte, which panics (None) when the stream is empty. Otherwise the read
      gives what is left from the stream's position on, and nothing once
      the position is at the end. */
  function ReadRest(w: DataWrapper): (r: Option<string>)
    ensures r.None? <==> w.data == ""
    ensures r.Some? ==> |r.value| <= |w.data| && r.value == w.data[|w.data| - |r.value|..]
    ensures r.Some? && w.pos == 0 ==> r.value == w.data
    ensures r.Some? && w.pos >= |w.data| ==> r.value == ""
  {
    if w.data == "" then None
    else if w.pos < |w.data| then Some(w.data[w.pos..])
    else Some("")
  }

  /** A content stream after it has been read to its end: a further read
      finds nothing (or still panics on an empty stream). */
  function AtEnd(w: DataWrapper): (r: DataWrapper)
    ensures r.data == w.data && r.encoding == w.encoding
    ensures ReadRest(r) == if w.data == "" then None else Some("")
  {
    w.(pos := |w.data|)
  }

  /** Two renderings one after the other; a panic in either is a panic. */
  function Then(a: Option<string>, b: Option<string>): Option<string> {
    if a.Some? && b.Some? then Some(a.value + b.value) else None
  }

  /** How `part` renders one leaf: its own header lines when `withHeaders`,
      then what its content stream still holds and a blank line. A leaf
      without content (its content object is nil, so asking it for its
      stream fails) or with an empty stream panics: None. */
  function LeafText(info: Info, content: Option<DataWrapper>, withHeaders: bool): Option<string> {
    if content.None? then None
    else
      var data := ReadRest(content.value);
      if data.None? then None
      else Some((if withHeaders then Render(info.headers) else "") + data.value + "\n\n")
  }

  /** The rendering of an object, in the order of the Go type switch: a
      multipart renders its children in order, a message part renders as
      nothing, a part (or a partial, which is a part too) as a leaf, and any
      other object as nothing. */
  function PartText(o: Obj, withHeaders: bool): Option<string>
    decreases o, 1
  {
    match o
    case Multipart(_, cs) => ChildrenText(cs, withHeaders)
    case MessagePart(_, _) => Some("")
    case Part(info, content) => LeafText(info, content, withHeaders)
    case Partial(info, content) => LeafText(info, content, withHeaders)
    case Message(_) => Some("")
    case Plain(_) => Some("")
  }

  /** The renderings of `cs`, one after the other. */
  function ChildrenText(cs: seq<Obj>, withHeaders: bool): Option<string>
    decreases cs, 0
  {
    if cs == [] then Some("") else Then(ChildrenText(cs[..|cs| - 1], withHeaders), PartText(cs[|cs| - 1], withHeaders))
  }

  /** An object after `part` has rendered it: the content stream of every
      leaf in it is at its end; nothing else changes. */
  function Drained(o: Obj): Obj
    decreases o, 1
  {
    match o
    case Multipart(info, cs) => Obj.Multipart(info, DrainedAll(cs))
    case Part(info, content) => Obj.Part(info, if content.Some? then Some(AtEnd(content.value)) else None)
    case Partial(info, content) => Obj.Partial(info, if content.Some? then Some(AtEnd(content.value)) else None)
    case MessagePart(_, _) => o
    case Message(_) => o
    case Plain(_) => o
  }

  /** Each of `cs` drained, in order. */
  function DrainedAll(cs: seq<Obj>): (r: seq<Obj>)
    ensures |r| == |cs|
    ensures forall i :: 0 <= i < |cs| ==> r[i] == Drained(cs[i])
    decreases cs, 0
  {
    if cs == [] then [] else DrainedAll(cs[..|cs| - 1]) + [Drained(cs[|cs| - 1])]
  }

  /** What `part` renders for an object once every leaf stream in it is at
      its end: for each leaf, its header lines (when `withHeaders`) and a
      blank line, with no data. */
  function Husk(o: Obj, withHeaders: bool): string
    decreases o, 1
  {
    match o
    case Multipart(_, cs) => HusksOf(cs, withHeaders)
    case Part(info, _) => (if withHeaders then Render(info.headers) else "") + "\n\n"
    case Partial(info, _) => (if withHeaders then Render(info.headers) else "") + "\n\n"
    case MessagePart(_, _) => ""
    case Message(_) => ""
    case Plain(_) => ""
  }

  /** The husks of `cs`, one after the other. */
  function HusksOf(cs: seq<Obj>, withHeaders: bool): string
    decreases cs, 0
  {
    if cs == [] then "" else HusksOf(cs[..|cs| - 1], withHeaders) + Husk(cs[|cs| - 1], withHeaders)
  }

  class Composer {
    const message: Message
    const multipart: MultipartRef
    var partsCount: nat

    /** The message keeps its header invariant; the count is the number of
        parts added, all of them leaves with content; the root is missing
        before the first part, the part itself while there is one, and the
        multipart/mixed container from the second part on. */
    predicate Valid()
      reads this, message, multipart
    {
      && message.Valid()
      && multipart.info == MultipartInfo("mixed")
      && partsCount == |multipart.children|
      && (forall i :: 0 <= i < |multipart.children| ==>
            multipart.children[i].Part? && multipart.children[i].content.Some?)
      && message.mimePart ==
           if partsCount == 0 then None
           else if partsCount == 1 then Some(multipart.children[0])
           else Some(multipart.AsObj())
    }

    /** NewCompose: a new message and an empty multipart/mixed; no parts
        yet. */
    constructor ()
      ensures Valid() && fresh(message) && fresh(multipart)
      ensures partsCount == 0 && multipart.children == []
      ensures message.headers == [] && message.mimePart.None?
      ensures message.to == [] && message.cc == [] && message.bcc == []
    {
      message := new Message();
      multipart := new MultipartRef.WithSubtype("mixed");
      partsCount := 0;
    }

    /** AddTo: a To recipient. */
    method AddTo(name: string, email: string)
      requires Valid()
      modifies message
      ensures Valid()
      ensures message.to == old(message.to) + [Mailbox(name, email)]
      ensures message.cc == old(message.cc) && message.bcc == old(message.bcc)
      ensures message.headers == Set(old(message.headers), "To", FormatList(message.to))
      ensures message.mimePart == old(message.mimePart)
    {
      message.AddTo(name, email);
    }

    /** AddCC: a Cc recipient. */
    method AddCC(name: string, email: string)
      requires Valid()
      modifies message
      ensures Valid()
      ensures message.cc == old(message.cc) + [Mailbox(name, email)]
      ensures message.to == old(message.to) && message.bcc == old(message.bcc)
      ensures message.headers == Set(old(message.headers), "Cc", FormatList(message.cc))
      ensures message.mimePart == old(message.mimePart)
    {
      message.AddCc(name, email);
    }

    /** AddBCC: a Bcc recipient. */
    method AddBCC(name: string, email: string)
      requires Valid()
      modifies message
      ensures Valid()
      ensures message.bcc == old(message.bcc) + [Mailbox(name, email)]
      ensures message.to == old(message.to) && message.cc == old(message.cc)
      ensures message.headers == Set(old(message.headers), "Bcc", FormatList(message.bcc))
      ensures message.mimePart == old(message.mimePart)
    {
      message.AddBcc(name, email);
    }

    /** AddSubject: sets the message subject. */
    method AddSubject(subject: string)
      requires Valid()
      modifies message
      ensures Valid()
      ensures message.subject == Some(subject)
      ensures message.headers == Set(old(message.headers), "Subject", subject)
      ensures message.to == old(message.to) && message.cc == old(message.cc) && message.bcc == old(message.bcc)
      ensures message.mimePart == old(message.mimePart)
    {
      message.SetSubject(subject);
    }

    /** addPart: a new leaf of type `t/s` holding `data` is appended to the
        multipart; the root becomes that leaf when it is the first part, and
        the multipart otherwise. */
    method AddPart(data: string, t: string, s: string, encoding: string)
      requires Valid()
      modifies this, message, multipart
      ensures Valid()
      ensures multipart.children == old(multipart.children) + [DataPart(data, t, s, encoding)]
      ensures partsCount == old(partsCount) + 1
      ensures old(partsCount) == 0 ==> message.mimePart == Some(DataPart(data, t, s, encoding))
      ensures old(partsCount) > 0 ==> message.mimePart == Some(multipart.AsObj())
      ensures message.headers == old(message.headers) && message.subject == old(message.subject)
      ensures message.to == old(message.to) && message.cc == old(message.cc) && message.bcc == old(message.bcc)
    {
      var part := DataPart(data, t, s, encoding);
      multipart.AddPart(part);
      if partsCount > 0 {
        GoTypeAssertions(Some(multipart.AsObj()));
        message.SetMimePart(Some(multipart.AsObj()));
      } else {
        GoTypeAssertions(Some(part));
        message.SetMimePart(Some(part));
      }
      partsCount := partsCount + 1;
    }

    /** AddText: appends a text/plain part. */
    method AddText(text: string, encoding: string)
      requires Valid()
      modifies this, message, multipart
      ensures Valid()
      ensures multipart.children == old(multipart.children) + [DataPart(text, "text", "plain", encoding)]
      ensures partsCount == old(partsCount) + 1
      ensures message.headers == old(message.headers) && message.subject == old(message.subject)
      ensures message.to == old(message.to) && message.cc == old(message.cc) && message.bcc == old(message.bcc)
    {
      AddPart(text, "text", "plain", encoding);
    }

    /** AddHTML: appends a text/html part. */
    method AddHTML(html: string, encoding: string)
      requires Valid()
      modifies this, message, multipart
      ensures Valid()
      ensures multipart.children == old(multipart.children) + [DataPart(html, "text", "html", encoding)]
      ensures partsCount == old(partsCount) + 1
      ensures message.headers == old(message.headers) && message.subject == old(message.subject)
      ensures message.to == old(message.to) && message.cc == old(message.cc) && message.bcc == old(message.bcc)
    {
      AddPart(html, "text", "html", encoding);
    }

    /** AddTextReader: not implemented by the composer; changes nothing. */
    method AddTextReader(reader: string) {
    }

    /** AddHTMLReader: not implemented by the composer; changes nothing. */
    method AddHTMLReader(reader: string) {
    }

    /** Text: not implemented by the composer; always "", whatever was
        added. */
    function Text(): (r: string)
      ensures r == ""
    {
      ""
    }

    /** HTML: answers what Text answers, so it is "" too. */
    function HTML(): (r: string)
      ensures r == Text() && r == ""
    {
      Text()
    }

    /** Subject: the message subject, "" before one is set. */
    function Subject(): (r: string)
      reads message
      ensures message.subject.Some? ==> r == message.subject.value
      ensures message.subject.None? ==> r == ""
    {
      message.Subject().0
    }

    /** To: the To list as text. */
    function To(): (r: string)
      reads message
      ensures r == FormatList(message.to)
      ensures message.to == [] ==> r == ""
      ensures |message.to| == 1 ==> r == Format(message.to[0])
    {
      FormatList(message.to)
    }

    /** Recipient: all recipients (To, then Cc, then Bcc) as one list of
        text. */
    function Recipient(): (r: string)
      reads message
      ensures r == FormatList(message.to + message.cc + message.bcc)
    {
      FormatList(message.AllRecipients())
    }

    /** part: renders one object and gives it back with its content streams
        read to the end; the loop over a multipart's children appends each
        child's rendering in order. None is a panic. */
    method RenderPart(o: Obj) returns (payload: Option<string>, after: Obj)
      ensures payload == PartText(o, partsCount > 1)
      ensures payload.Some? ==> after == Drained(o)
      decreases o, 1
    {
      after := o;
      match o {
        case Multipart(info, cs) =>
          var drained;
          payload, drained := RenderChildren(cs);
          if payload.Some? {
            after := Obj.Multipart(info, drained);
          }
        case MessagePart(_, _) =>
          payload := Some("");
        case Part(info, content) =>
          var text, rest := RenderLeaf(info, content);
          payload := text;
          after := Obj.Part(info, rest);
        case Partial(info, content) =>
          var text, rest := RenderLeaf(info, content);
          payload := text;
          after := Obj.Partial(info, rest);
        case Message(_) =>
          payload := Some("");
        case Plain(_) =>
          payload := Some("");
      }
    }

    /** The loop of `part` over a multipart's children: appends each
        child's rendering in index order and stops at the first panic. */
    method RenderChildren(cs: seq<Obj>) returns (payload: Option<string>, drained: seq<Obj>)
      ensures payload == ChildrenText(cs, partsCount > 1)
      ensures payload.Some? ==> drained == DrainedAll(cs)
      decreases cs, 0
    {
      var text := "";
      drained := [];
      var i := 0;
      while i < |cs|
        invariant 0 <= i <= |cs|
        invariant ChildrenText(cs[..i], partsCount > 1) == Some(text)
        invariant drained == DrainedAll(cs[..i])
      {
        var sub, subAfter := RenderPart(cs[i]);
        assert cs[..i + 1] == cs[..i] + [cs[i]];
        ChildrenTextAppend(cs[..i], cs[i], partsCount > 1);
        DrainedAllAppend(cs[..i], cs[i]);
        if sub.None? {
          ChildrenTextPanics(cs, partsCount > 1);
          return None, drained;
        }
        text := text + sub.value;
        drained := drained + [subAfter];
        i := i + 1;
      }
      assert cs[..|cs|] == cs;
      payload := Some(text);
    }

    /** The Part branch of `part`: reads the leaf's whole stream, and puts
        the part's headers in front when more than one part was added. */
    method RenderLeaf(info: Info, content: Option<DataWrapper>) returns (payload: Option<string>, rest: Option<DataWrapper>)
      ensures payload == LeafText(info, content, partsCount > 1)
      ensures payload.Some? ==> content.Some? && rest == Some(AtEnd(content.value))
    {
      rest := content;
      if content.None? {
        return None, rest;
      }
      var data := ReadRest(content.value);
      if data.None? {
        return None, rest;
      }
      var text := "";
      if partsCount > 1 {
        text := Render(info.headers);
      }
      payload := Some(text + data.value + "\n\n");
      rest := Some(AtEnd(content.value));
    }

    /** ToString: the message header block, a blank line, and the rendering
        of the root (None when rendering panics). Every part's content
        stream is left at its end, so a later call renders no data. */
    method ToString() returns (s: Option<string>)
      requires Valid()
      modifies message, multipart
      ensures Valid()
      ensures s == old(Composed())
      ensures s.Some? ==> multipart.children == DrainedAll(old(multipart.children))
      ensures s.None? ==> multipart.children == old(multipart.children)
      ensures multipart.info == old(multipart.info)
      ensures message.headers == old(message.headers) && message.subject == old(message.subject)
      ensures message.messageId == old(message.messageId)
      ensures message.to == old(message.to) && message.cc == old(message.cc) && message.bcc == old(message.bcc)
    {
      var head := message.Headers() + "\n";
      if message.mimePart.None? {
        s := Some(head + "");
      } else {
        var body, after := RenderPart(message.mimePart.value);
        if body.None? {
          s := None;
        } else {
          s := Some(head + body.value);
          var drained := DrainedAll(multipart.children);
          assert partsCount == 1 ==> after == drained[0];
          assert partsCount > 1 ==> after == Obj.Multipart(multipart.info, drained);
          multipart.children := drained;
          message.mimePart := Some(after);
        }
      }
    }

    /** The body ToString renders for the current root, None when it
        panics. */
    function Body(): Option<string>
      reads this, message
    {
      if message.mimePart.Some? then PartText(message.mimePart.value, partsCount > 1) else Some("")
    }

    /** The text ToString gives for the current state. */
    function Composed(): Option<string>
      reads this, message
    {
      if Body().Some? then Some(message.Headers() + "\n" + Body().value) else None
    }
  }

  /** The two reader variants leave the composer as it was: no part is
      added, the root and the message headers stay. */
  method ReadersChangeNothing(c: Composer, reader: string) returns (text: string, html: string)
    requires c.Valid()
    ensures c.Valid()
    ensures c.partsCount == old(c.partsCount) && c.multipart.children == old(c.multipart.children)
    ensures c.message.mimePart == old(c.message.mimePart) && c.message.headers == old(c.message.headers)
    ensures text == "" && html == ""
  {
    c.AddTextReader(reader);
    c.AddHTMLReader(reader);
    text := c.Text();
    html := c.HTML();
  }

  /** Rendering one more object after a sequence of siblings appends its
      rendering; a panic in either is a panic. */
  lemma {:induction false} ChildrenTextAppend(cs: seq<Obj>, c: Obj, withHeaders: bool)
    ensures ChildrenText(cs + [c], withHeaders) == Then(ChildrenText(cs, withHeaders), PartText(c, withHeaders))
  {
    assert (cs + [c])[..|cs|] == cs;
  }

  /** Draining one more child appends that child drained. */
  lemma DrainedAllAppend(cs: seq<Obj>, c: Obj)
    ensures DrainedAll(cs + [c]) == DrainedAll(cs) + [Drained(c)]
  {
    assert (cs + [c])[..|cs|] == cs;
  }

  /** Rendering a sequence of siblings is rendering a prefix, then the
      rest. */
  lemma {:induction false} ChildrenTextSplit(cs: seq<Obj>, k: nat, withHeaders: bool)
    requires k <= |cs|
    ensures Then(ChildrenText(cs[..k], withHeaders), ChildrenText(cs[k..], withHeaders)) == ChildrenText(cs, withHeaders)
    decreases |cs| - k
  {
    if k == |cs| {
      assert cs[..k] == cs;
      assert cs[k..] == [];
      ThenUnit(ChildrenText(cs, withHeaders));
    } else {
      var last := cs[|cs| - 1];
      var front := cs[..|cs| - 1];
      ChildrenTextSplit(front, k, withHeaders);
      SplitBeforeLast(cs, k);
      ChildrenTextAppend(front[k..], last, withHeaders);
      ThenAssociates(ChildrenText(cs[..k], withHeaders), ChildrenText(front[k..], withHeaders), PartText(last, withHeaders));
    }
  }

  /** Renderings one after the other group either way. */
  lemma ThenAssociates(a: Option<string>, b: Option<string>, c: Option<string>)
    ensures Then(Then(a, b), c) == Then(a, Then(b, c))
  {
    if a.Some? && b.Some? && c.Some? {
      assert a.value + b.value + c.value == a.value + (b.value + c.value);
    }
  }

  /** Nothing rendered before a rendering leaves it as it was. */
  lemma ThenUnit(a: Option<string>)
    ensures Then(Some(""), a) == a && Then(a, Some("")) == a
  {
    if a.Some? {
      assert "" + a.value == a.value;
      assert a.value + "" == a.value;
    }
  }

  /** Cutting a sequence at `k` and before its last element. */
  lemma SplitBeforeLast<T>(cs: seq<T>, k: nat)
    requires k < |cs|
    ensures cs[..|cs| - 1][..k] == cs[..k]
    ensures cs[k..] == cs[..|cs| - 1][k..] + [cs[|cs| - 1]]
  {
  }

  /** Rendering siblings panics exactly when rendering one of them does. */
  lemma {:induction false} ChildrenTextPanics(cs: seq<Obj>, withHeaders: bool)
    ensures ChildrenText(cs, withHeaders).None? <==>
      exists i :: 0 <= i < |cs| && PartText(cs[i], withHeaders).None?
  {
    if cs != [] {
      var n := |cs| - 1;
      var front := cs[..n];
      ChildrenTextPanics(front, withHeaders);
      assert ChildrenText(cs, withHeaders) == Then(ChildrenText(front, withHeaders), PartText(cs[n], withHeaders));
      if ChildrenText(cs, withHeaders).None? {
        if ChildrenText(front, withHeaders).None? {
          var i :| 0 <= i < n && PartText(front[i], withHeaders).None?;
          assert front[i] == cs[i];
        }
      } else {
        forall i | 0 <= i < |cs|
          ensures PartText(cs[i], withHeaders).Some?
        {
          if i < n {
            assert front[i] == cs[i];
          }
        }
      }
    }
  }

  /** What the composer renders below the header block: nothing before the
      first part; a lone part's data without its headers; once there are two
      or more parts, every part with its own header lines, in the order they
      were added. */
  lemma {:induction false} BodyShape(c: Composer)
    requires c.Valid()
    ensures c.partsCount == 0 ==> c.Body() == Some("")
    ensures c.partsCount == 1 ==> c.Body() == LeafText(c.multipart.children[0].info, c.multipart.children[0].content, false)
    ensures c.partsCount == 1 && c.multipart.children[0].content.value.pos == 0 && Data(c.multipart.children[0].content) != "" ==>
      c.Body() == Some(Data(c.multipart.children[0].content) + "\n\n")
    ensures c.partsCount > 1 ==> c.Body() == ChildrenText(c.multipart.children, true)
  {
    if c.partsCount == 1 {
      var w := c.multipart.children[0].content.value;
      assert w.pos == 0 ==> w.data[w.pos..] == w.data;
      assert "" + w.data == w.data;
    }
  }

  /** Rendering the composer panics exactly when one of its parts holds no
      data. */
  lemma {:induction false} ComposerPanics(c: Composer)
    requires c.Valid()
    ensures c.Body().None? <==>
      exists i :: 0 <= i < |c.multipart.children| && Data(c.multipart.children[i].content) == ""
  {
    var cs := c.multipart.children;
    if c.partsCount > 1 {
      ChildrenTextPanics(cs, true);
      assert forall i :: 0 <= i < |cs| ==> (PartText(cs[i], true).None? <==> Data(cs[i].content) == "");
    } else if c.partsCount == 1 {
      assert PartText(cs[0], false).None? <==> Data(cs[0].content) == "";
    }
  }

  /** Rendering an object that rendered without a panic once more, after
      its streams were read to the end, gives its husk: the header lines and
      blank lines without any data. */
  lemma {:induction false} DrainedText(o: Obj, withHeaders: bool)
    requires PartText(o, withHeaders).Some?
    ensures PartText(Drained(o), withHeaders) == Some(Husk(o, withHeaders))
    decreases o, 1
  {
    match o
    case Multipart(_, cs) => DrainedChildrenText(cs, withHeaders);
    case MessagePart(_, _) =>
    case Part(info, content) =>
      assert ReadRest(AtEnd(content.value)) == Some("");
      assert (if withHeaders then Render(info.headers) else "") + "" == (if withHeaders then Render(info.headers) else "");
    case Partial(info, content) =>
      assert ReadRest(AtEnd(content.value)) == Some("");
      assert (if withHeaders then Render(info.headers) else "") + "" == (if withHeaders then Render(info.headers) else "");
    case Message(_) =>
    case Plain(_) =>
  }

  /** DrainedText for a sequence of siblings. */
  lemma {:induction false} DrainedChildrenText(cs: seq<Obj>, withHeaders: bool)
    requires ChildrenText(cs, withHeaders).Some?
    ensures ChildrenText(DrainedAll(cs), withHeaders) == Some(HusksOf(cs, withHeaders))
    decreases cs, 0
  {
    if cs != [] {
      var n := |cs| - 1;
      DrainedChildrenText(cs[..n], withHeaders);
      DrainedText(cs[n], withHeaders);
      assert DrainedAll(cs)[..n] == DrainedAll(cs[..n]);
    }
  }

  /** Four siblings render one after the other. */
  lemma {:induction false} ChildrenTextFour(p: Obj, q: Obj, r: Obj, t: Obj, withHeaders: bool)
    ensures ChildrenText([p, q, r, t], withHeaders) ==
      Then(Then(Then(PartText(p, withHeaders), PartText(q, withHeaders)), PartText(r, withHeaders)), PartText(t, withHeaders))
  {
    var w := withHeaders;
    assert [p][..0] == [];
    assert ChildrenText([p], w) == PartText(p, w) by {
      ThenUnit(PartText(p, w));
    }
    assert [p, q][..1] == [p];
    assert ChildrenText([p, q], w) == Then(PartText(p, w), PartText(q, w));
    assert [p, q, r][..2] == [p, q];
    assert ChildrenText([p, q, r], w) == Then(Then(PartText(p, w), PartText(q, w)), PartText(r, w));
    assert [p, q, r, t][..3] == [p, q, r];
  }

  /** Four siblings' husks, one after the other. */
  lemma {:induction false} HusksFour(p: Obj, q: Obj, r: Obj, t: Obj, withHeaders: bool)
    ensures HusksOf([p, q, r, t], withHeaders) ==
      Husk(p, withHeaders) + Husk(q, withHeaders) + Husk(r, withHeaders) + Husk(t, withHeaders)
  {
    var w := withHeaders;
    assert [p][..0] == [];
    assert HusksOf([p], w) == Husk(p, w) by {
      assert "" + Husk(p, w) == Husk(p, w);
    }
    assert [p, q][..1] == [p];
    assert HusksOf([p, q], w) == Husk(p, w) + Husk(q, w);
    assert [p, q, r][..2] == [p, q];
    assert HusksOf([p, q, r], w) == Husk(p, w) + Husk(q, w) + Husk(r, w);
    assert [p, q, r, t][..3] == [p, q, r];
  }

  /** A part the composer built, rendered with its headers before its
      stream was read: its Content-Type line, its data, a blank line. */
  lemma {:induction false} DataPartText(data: string, t: string, s: string, encoding: string)
    requires data != ""
    ensures PartText(DataPart(data, t, s, encoding), true) == Some("Content-Type: " + (t + "/" + s) + "\n" + data + "\n\n")
    ensures Husk(DataPart(data, t, s, encoding), true) == "Content-Type: " + (t + "/" + s) + "\n" + "\n\n"
  {
    var o := DataPart(data, t, s, encoding);
    var line := "Content-Type: " + (t + "/" + s) + "\n";
    assert Render(o.info.headers) == line by {
      assert o.info.headers[1..] == [];
      assert Render(o.info.headers) == Line(o.info.headers[0]);
    }
    assert ReadRest(o.content.value) == Some(data) by {
      assert data[0..] == data;
    }
    assert PartText(o, true) == Some(line + data + "\n\n");
  }

  /** The parts of the composed example, in the order they are added. */
  function ExampleParts(): seq<Obj> {
    [DataPart("Text part # 1", "text", "plain", ""),
     DataPart("<strong>HTML</strong> part #1", "text", "html", "8bit"),
     DataPart("Text part # 2", "text", "plain", "8bit"),
     DataPart("<strong>HTML</strong> part #2", "text", "html", "8bit")]
  }

  /** The message headers of the composed example. */
  function ExampleHeaders(): seq<Header> {
    var v := "Some Receiver <receiver@example.com>";
    [Header("To", v), Header("Cc", v), Header("Bcc", v), Header("Subject", "This is message subject")]
  }

  /** Three recipients and a subject: they become the message headers in
      that order. */
  method BuildRecipients() returns (c: Composer)
    ensures fresh(c) && fresh(c.message) && fresh(c.multipart) && c.Valid()
    ensures c.message.headers == ExampleHeaders() && c.partsCount == 0
  {
    var name, email := "Some Receiver", "receiver@example.com";
    var subject := "This is message subject";
    c := new Composer();
    c.AddTo(name, email);
    c.AddCC(name, email);
    c.AddBCC(name, email);
    c.AddSubject(subject);
    ExampleHeadersBuilt();
  }

  /** Setting To, Cc, Bcc and Subject on an empty header list appends them
      in that order. */
  lemma {:induction false} RecipientsAndSubject(v: string, subject: string)
    ensures Set(Set(Set(Set([], "To", v), "Cc", v), "Bcc", v), "Subject", subject) ==
      [Header("To", v), Header("Cc", v), Header("Bcc", v), Header("Subject", subject)]
  {
    DistinctFieldNames();
    var h1 := Set([], "To", v);
    SetAppendsNew(h1, "Cc", v);
    var h2 := Set(h1, "Cc", v);
    SetAppendsNew(h2, "Bcc", v);
    var h3 := Set(h2, "Bcc", v);
    assert h3 == [Header("To", v), Header("Cc", v), Header("Bcc", v)];
    assert !NameEq(HeaderName(ToRecipient), "Subject") && !NameEq(HeaderName(CcRecipient), "Subject");
    assert !NameEq(HeaderName(BccRecipient), "Subject");
    SetAppendsNew(h3, "Subject", subject);
  }

  /** The example recipient, formatted. */
  lemma ExampleRecipient()
    ensures FormatList([Mailbox("Some Receiver", "receiver@example.com")]) == "Some Receiver <receiver@example.com>"
  {
    var m := Mailbox("Some Receiver", "receiver@example.com");
    assert FormatList([m]) == m.name + " <" + m.address + ">";
    assert "Some Receiver" + " <" == "Some Receiver <";
    assert "Some Receiver <" + "receiver@example.com" == "Some Receiver <receiver@example.com";
  }

  /** The header lines of the composed example. */
  lemma {:induction false} ExampleHeadersBuilt()
    ensures
      var v := FormatList([Mailbox("Some Receiver", "receiver@example.com")]);
      Set(Set(Set(Set([], "To", v), "Cc", v), "Bcc", v), "Subject", "This is message subject") == ExampleHeaders()
  {
    ExampleRecipient();
    RecipientsAndSubject("Some Receiver <receiver@example.com>", "This is message subject");
  }

  /** Then four parts, alternating text/plain and text/html: the root is
      the multipart holding the four parts in that order. */
  method BuildExample() returns (c: Composer)
    ensures fresh(c) && fresh(c.message) && fresh(c.multipart) && c.Valid()
    ensures c.message.headers == ExampleHeaders()
    ensures c.multipart.children == ExampleParts() && c.partsCount == 4
  {
    c := BuildRecipients();
    AddExampleParts(c);
  }

  /** Adds the example's text and HTML parts, alternating, to a composer
      with no parts yet. */
  method AddExampleParts(c: Composer)
    requires c.Valid() && c.partsCount == 0
    modifies c, c.message, c.multipart
    ensures c.Valid()
    ensures c.message.headers == old(c.message.headers)
    ensures c.multipart.children == ExampleParts() && c.partsCount == 4
  {
    var ps := ExampleParts();
    c.AddText("Text part # 1", "");
    assert c.multipart.children == ps[..1];
    c.AddHTML("<strong>HTML</strong> part #1", "8bit");
    c.AddText("Text part # 2", "8bit");
    c.AddHTML("<strong>HTML</strong> part #2", "8bit");
    assert c.multipart.children == ps;
  }


  /** The composed example rendered once: the recipient and subject lines, a
      MIME-Version line, the multipart's header line, a blank line and the
      four parts, each with its header line, in the order they were
      added. */
  method ComposeExample() returns (s: Option<string>)
    ensures s == Some(
      (("To: " + "Some Receiver <receiver@example.com>" + "\n") +
       ("Cc: " + "Some Receiver <receiver@example.com>" + "\n") +
       ("Bcc: " + "Some Receiver <receiver@example.com>" + "\n") +
       ("Subject: " + "This is message subject" + "\n")) +
      "MIME-Version: 1.0\n" +
      ("Content-Type: " + "multipart/mixed" + "\n") +
      "\n" +
      (("Content-Type: " + "text/plain" + "\n" + "Text part # 1" + "\n\n") +
       ("Content-Type: " + "text/html" + "\n" + "<strong>HTML</strong> part #1" + "\n\n") +
       ("Content-Type: " + "text/plain" + "\n" + "Text part # 2" + "\n\n") +
       ("Content-Type: " + "text/html" + "\n" + "<strong>HTML</strong> part #2" + "\n\n")))
  {
    var c := BuildExample();
    ExampleBody();
    ExampleFrame(c,
      ("Content-Type: " + "text/plain" + "\n" + "Text part # 1" + "\n\n") +
      ("Content-Type: " + "text/html" + "\n" + "<strong>HTML</strong> part #1" + "\n\n") +
      ("Content-Type: " + "text/plain" + "\n" + "Text part # 2" + "\n\n") +
      ("Content-Type: " + "text/html" + "\n" + "<strong>HTML</strong> part #2" + "\n\n"));
    s := c.ToString();
  }

  /** The composed example rendered twice: the second rendering finds every
      part's stream at its end, so each part keeps its header line and blank
      line but loses its data. */
  method SecondRenderExample() returns (first: Option<string>, second: Option<string>)
    ensures first == Some(
      (("To: " + "Some Receiver <receiver@example.com>" + "\n") +
       ("Cc: " + "Some Receiver <receiver@example.com>" + "\n") +
       ("Bcc: " + "Some Receiver <receiver@example.com>" + "\n") +
       ("Subject: " + "This is message subject" + "\n")) +
      "MIME-Version: 1.0\n" +
      ("Content-Type: " + "multipart/mixed" + "\n") +
      "\n" +
      (("Content-Type: " + "text/plain" + "\n" + "Text part # 1" + "\n\n") +
       ("Content-Type: " + "text/html" + "\n" + "<strong>HTML</strong> part #1" + "\n\n") +
       ("Content-Type: " + "text/plain" + "\n" + "Text part # 2" + "\n\n") +
       ("Content-Type: " + "text/html" + "\n" + "<strong>HTML</strong> part #2" + "\n\n")))
    ensures second == Some(
      (("To: " + "Some Receiver <receiver@example.com>" + "\n") +
       ("Cc: " + "Some Receiver <receiver@example.com>" + "\n") +
       ("Bcc: " + "Some Receiver <receiver@example.com>" + "\n") +
       ("Subject: " + "This is message subject" + "\n")) +
      "MIME-Version: 1.0\n" +
      ("Content-Type: " + "multipart/mixed" + "\n") +
      "\n" +
      (("Content-Type: " + "text/plain" + "\n" + "\n\n") +
       ("Content-Type: " + "text/html" + "\n" + "\n\n") +
       ("Content-Type: " + "text/plain" + "\n" + "\n\n") +
       ("Content-Type: " + "text/html" + "\n" + "\n\n")))
  {
    var c := BuildExample();
    ExampleBody();
    ExampleFrame(c,
      ("Content-Type: " + "text/plain" + "\n" + "Text part # 1" + "\n\n") +
      ("Content-Type: " + "text/html" + "\n" + "<strong>HTML</strong> part #1" + "\n\n") +
      ("Content-Type: " + "text/plain" + "\n" + "Text part # 2" + "\n\n") +
      ("Content-Type: " + "text/html" + "\n" + "<strong>HTML</strong> part #2" + "\n\n"));
    first := c.ToString();
    DrainedChildrenText(ExampleParts(), true);
    ExampleHusks();
    ExampleFrame(c,
      ("Content-Type: " + "text/plain" + "\n" + "\n\n") +
      ("Content-Type: " + "text/html" + "\n" + "\n\n") +
      ("Content-Type: " + "text/plain" + "\n" + "\n\n") +
      ("Content-Type: " + "text/html" + "\n" + "\n\n"));
    second := c.ToString();
  }

  /** A part with no data makes rendering panic: the buffer Go reads into
      has no first byte. */
  method EmptyPartPanics() returns (s: Option<string>)
    ensures s == None
  {
    var c := new Composer();
    c.AddText("", "");
    s := c.ToString();
  }

  /** The text of a composer holding the example's headers and four parts
      whose rendering is `body`: the message header lines, a MIME-Version
      line (the example has none of its own), the multipart's header line, a
      blank line and `body`. */
  lemma {:induction false} ExampleFrame(c: Composer, body: string)
    requires c.Valid() && c.partsCount == 4
    requires c.message.headers == ExampleHeaders()
    requires ChildrenText(c.multipart.children, true) == Some(body)
    ensures c.Composed() == Some(
      (("To: " + "Some Receiver <receiver@example.com>" + "\n") +
       ("Cc: " + "Some Receiver <receiver@example.com>" + "\n") +
       ("Bcc: " + "Some Receiver <receiver@example.com>" + "\n") +
       ("Subject: " + "This is message subject" + "\n")) +
      "MIME-Version: 1.0\n" +
      ("Content-Type: " + "multipart/mixed" + "\n") +
      "\n" +
      body)
  {
    var head :=
      ("To: " + "Some Receiver <receiver@example.com>" + "\n") +
      ("Cc: " + "Some Receiver <receiver@example.com>" + "\n") +
      ("Bcc: " + "Some Receiver <receiver@example.com>" + "\n") +
      ("Subject: " + "This is message subject" + "\n");
    var rootHead := "Content-Type: " + "multipart/mixed" + "\n";
    RecipientLines("Some Receiver <receiver@example.com>", "This is message subject");
    ExampleLacksMimeVersion();
    ExampleContentTypeLine(c.multipart.AsObj());
    assert c.message.mimePart == Some(c.multipart.AsObj());
    assert c.message.Headers() == head + ("MIME-Version: 1.0\n" + rootHead);
    assert c.Body() == Some(body);
    AppendRegroup(head, "MIME-Version: 1.0\n", rootHead, "\n", body);
  }

  /** Regrouping a concatenation of five strings. */
  lemma AppendRegroup(a: string, b: string, c: string, d: string, e: string)
    ensures a + (b + c) + d + e == a + b + c + d + e
  {
  }

  /** A header line whose name and separator are `prefix`. */
  lemma LineWith(name: string, value: string, prefix: string)
    requires name + ": " == prefix
    ensures Line(Header(name, value)) == prefix + value + "\n"
  {
  }

  /** The header lines of recipients and a subject. */
  lemma {:induction false} RecipientLines(v: string, subject: string)
    ensures Render([Header("To", v), Header("Cc", v), Header("Bcc", v), Header("Subject", subject)]) ==
      ("To: " + v + "\n") + ("Cc: " + v + "\n") + ("Bcc: " + v + "\n") + ("Subject: " + subject + "\n")
  {
    RenderFour(Header("To", v), Header("Cc", v), Header("Bcc", v), Header("Subject", subject));
    LineWith("To", v, "To: ");
    LineWith("Cc", v, "Cc: ");
    LineWith("Bcc", v, "Bcc: ");
    LineWith("Subject", subject, "Subject: ");
  }

  /** The composed example has no MIME-Version header of its own, so one
      is added. */
  lemma {:induction false} ExampleLacksMimeVersion()
    ensures !HasName(ExampleHeaders(), "MIME-Version")
  {
    var hs := ExampleHeaders();
    forall i | 0 <= i < |hs| ensures !NameEq(hs[i].name, "MIME-Version") {
      assert Lower(hs[i].name)[0] != Lower("MIME-Version")[0];
    }
  }

  /** The header line of a new multipart/mixed. */
  lemma {:induction false} ExampleContentTypeLine(root: Obj)
    requires root.info == MultipartInfo("mixed")
    ensures Render(root.info.headers) == "Content-Type: " + "multipart/mixed" + "\n"
  {
    assert "multipart/" + "mixed" == "multipart/mixed";
    assert "Content-Type" + ": " == "Content-Type: ";
    assert root.info.headers[1..] == [];
  }


  /** The body of the composed example on its first rendering: the four
      parts, each with its header line and its data. */
  lemma {:induction false} ExampleBody()
    ensures ChildrenText(ExampleParts(), true) == Some(
      ("Content-Type: " + "text/plain" + "\n" + "Text part # 1" + "\n\n") +
      ("Content-Type: " + "text/html" + "\n" + "<strong>HTML</strong> part #1" + "\n\n") +
      ("Content-Type: " + "text/plain" + "\n" + "Text part # 2" + "\n\n") +
      ("Content-Type: " + "text/html" + "\n" + "<strong>HTML</strong> part #2" + "\n\n"))
  {
    var ps := ExampleParts();
    ChildrenTextFour(ps[0], ps[1], ps[2], ps[3], true);
    assert "text" + "/" + "plain" == "text/plain";
    assert "text" + "/" + "html" == "text/html";
    TypedPartText("Text part # 1", "text", "plain", "", "text/plain");
    TypedPartText("<strong>HTML</strong> part #1", "text", "html", "8bit", "text/html");
    TypedPartText("Text part # 2", "text", "plain", "8bit", "text/plain");
    TypedPartText("<strong>HTML</strong> part #2", "text", "html", "8bit", "text/html");
  }

  /** The husks of the composed example's parts: each part's header line
      and a blank line. */
  lemma {:induction false} ExampleHusks()
    ensures HusksOf(ExampleParts(), true) ==
      ("Content-Type: " + "text/plain" + "\n" + "\n\n") +
      ("Content-Type: " + "text/html" + "\n" + "\n\n") +
      ("Content-Type: " + "text/plain" + "\n" + "\n\n") +
      ("Content-Type: " + "text/html" + "\n" + "\n\n")
  {
    var ps := ExampleParts();
    HusksFour(ps[0], ps[1], ps[2], ps[3], true);
    assert "text" + "/" + "plain" == "text/plain";
    assert "text" + "/" + "html" == "text/html";
    TypedPartText("Text part # 1", "text", "plain", "", "text/plain");
    TypedPartText("<strong>HTML</strong> part #1", "text", "html", "8bit", "text/html");
    TypedPartText("Text part # 2", "text", "plain", "8bit", "text/plain");
    TypedPartText("<strong>HTML</strong> part #2", "text", "html", "8bit", "text/html");
  }

  /** A part the composer built, rendered with its headers before and after
      its stream was read, when its type is known as one literal
      "type/subtype". */
  lemma {:induction false} TypedPartText(data: string, t: string, s: string, encoding: string, mimeType: string)
    requires t + "/" + s == mimeType && data != ""
    ensures PartText(DataPart(data, t, s, encoding), true) == Some("Content-Type: " + mimeType + "\n" + data + "\n\n")
    ensures Husk(DataPart(data, t, s, encoding), true) == "Content-Type: " + mimeType + "\n" + "\n\n"
  {
    DataPartText(data, t, s, encoding);
  }
}
