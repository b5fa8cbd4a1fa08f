/** MIME objects: the tree of parts the C library owns, the classification
    that turns a C object into the right Go wrapper type, and the generic Go
    object handle (headers, content type, content disposition). */
module Objects {
  import opened Util
  import opened Params
  import opened HeaderLists
  import opened ContentDispositions
  import opened Walks

  /** A parsed Content-Type. */
  datatype ContentType = ContentType(mediaType: string, subtype: string, params: ParamList) {
    /** The "type/subtype" string; parameters are not part of it. */
    function MimeType(): string {
      mediaType + "/" + subtype
    }
  }

  /** A part's content: its raw data, the transfer encoding it is in, and
      the read position of the memory stream that holds the data (0 for a
      stream nobody has read yet). */
  datatype DataWrapper = DataWrapper(data: string, encoding: string, pos: nat)

  /** What every MIME object has: an optional content type, an optional
      content disposition, and its header list. */
  datatype Info = Info(contentType: Option<ContentType>, disposition: Option<RawDisposition>, headers: seq<Header>)

  /** A C MIME object. A partial is a subclass of a leaf part; a multipart
      holds its children in order; a message part holds the MIME part of its
      embedded message, None when it has no message or the message has no
      MIME part. */
  datatype Obj =
    | Part(info: Info, content: Option<DataWrapper>)
    | Partial(info: Info, content: Option<DataWrapper>)
    | Multipart(info: Info, children: seq<Obj>)
    | MessagePart(info: Info, embedded: Option<Obj>)
    | Message(info: Info)
    | Plain(info: Info)

  /** The Go wrapper type objectAsSubclass picks. */
  datatype Kind = MessagePartKind | PartialKind | MultipartKind | PartKind | MessageKind | ObjectKind

  /** The answers of the C run-time type checks on a pointer. */
  datatype TypeFlags = TypeFlags(isMessagePart: bool, isPartial: bool, isMultipart: bool, isPart: bool, isMessage: bool)

  /** The run-time type checks on a C pointer (None is NULL, which passes
      none of them). A partial is a subclass of part, so it passes both. */
  function Flags(p: Option<Obj>): (t: TypeFlags)
    ensures p.None? ==> t == TypeFlags(false, false, false, false, false)
    ensures p.Some? && p.value.Partial? ==> t.isPartial && t.isPart
  {
    match p
    case None => TypeFlags(false, false, false, false, false)
    case Some(o) =>
      match o
      case Part(_, _) => TypeFlags(false, false, false, true, false)
      case Partial(_, _) => TypeFlags(false, true, false, true, false)
      case Multipart(_, _) => TypeFlags(false, false, true, false, false)
      case MessagePart(_, _) => TypeFlags(true, false, false, false, false)
      case Message(_) => TypeFlags(false, false, false, false, true)
      case Plain(_) => TypeFlags(false, false, false, false, false)
  }

  /** The position of each kind in the order objectAsSubclass tries them. */
  function Rank(k: Kind): nat {
    match k
    case MessagePartKind => 0
    case PartialKind => 1
    case MultipartKind => 2
    case PartKind => 3
    case MessageKind => 4
    case ObjectKind => 5
  }

  /** The type check that selects kind `k` succeeds; every object is a plain
      object. */
  predicate Passes(t: TypeFlags, k: Kind) {
    match k
    case MessagePartKind => t.isMessagePart
    case PartialKind => t.isPartial
    case MultipartKind => t.isMultipart
    case PartKind => t.isPart
    case MessageKind => t.isMessage
    case ObjectKind => true
  }

  /** objectAsSubclass: the first kind, in the order message part, partial,
      multipart, part, message, plain object, whose type check succeeds. */
  function ObjectAsSubclass(t: TypeFlags): (k: Kind)
    ensures Passes(t, k)
    ensures forall k2: Kind :: Rank(k2) < Rank(k) ==> !Passes(t, k2)
  {
    if t.isMessagePart then MessagePartKind
    else if t.isPartial then PartialKind
    else if t.isMultipart then MultipartKind
    else if t.isPart then PartKind
    else if t.isMessage then MessageKind
    else ObjectKind
  }

  /** The Go wrapper type chosen for a C pointer. */
  function KindOf(p: Option<Obj>): Kind {
    ObjectAsSubclass(Flags(p))
  }

  /** Each C object gets the wrapper of its own class: in particular a partial
      is wrapped as a partial and not as a plain part, because the partial
      check comes first; NULL gets a plain object wrapper. */
  lemma {:induction false} KindOfVariant(p: Option<Obj>)
    ensures p.None? ==> KindOf(p) == ObjectKind
    ensures p.Some? ==> match p.value
      case Part(_, _) => KindOf(p) == PartKind
      case Partial(_, _) => KindOf(p) == PartialKind
      case Multipart(_, _) => KindOf(p) == MultipartKind
      case MessagePart(_, _) => KindOf(p) == MessagePartKind
      case Message(_) => KindOf(p) == MessageKind
      case Plain(_) => KindOf(p) == ObjectKind
  {
    var k := KindOf(p);
    assert Passes(Flags(p), k);
    if p.Some? && p.value.Partial? {
      assert !Passes(Flags(p), MessagePartKind);
    }
  }

  /** The Go assertion `x.(Part)` succeeds on the wrapper: a plain part, or a
      partial, whose Go type embeds the part type. */
  predicate IsGoPart(p: Option<Obj>) {
    KindOf(p) == PartKind || KindOf(p) == PartialKind
  }

  /** The Go assertion `x.(Multipart)` succeeds on the wrapper. */
  predicate IsGoMultipart(p: Option<Obj>) {
    KindOf(p) == MultipartKind
  }

  /** A Go Part is exactly a C leaf part or partial; a Go Multipart exactly a
      C multipart; NULL is neither. */
  lemma GoTypeAssertions(p: Option<Obj>)
    ensures IsGoPart(p) <==> p.Some? && (p.value.Part? || p.value.Partial?)
    ensures IsGoMultipart(p) <==> p.Some? && p.value.Multipart?
  {
    KindOfVariant(p);
  }

  /** The "type/subtype" of an object, or "" when it has no content type. */
  function MimeTypeOf(p: Option<Obj>): string {
    if p.Some? && p.value.info.contentType.Some? then p.value.info.contentType.value.MimeType() else ""
  }

  /** The file name of a part: the disposition's "filename" parameter when
      it is present (even when its value is ""), otherwise the content type's
      "name" parameter; "" when neither is present. */
  function Filename(o: Obj): (r: string)
    ensures FilenameParam(o).Some? ==> r == FilenameParam(o).value
    ensures FilenameParam(o).None? && o.info.contentType.Some? ==>
      r == Params.Parameter(o.info.contentType.value.params, "name")
    ensures FilenameParam(o).None? && o.info.contentType.None? ==> r == ""
  {
    match FilenameParam(o)
    case Some(f) => f
    case None => if o.info.contentType.Some? then Params.Parameter(o.info.contentType.value.params, "name") else ""
  }

  /** The disposition's "filename" parameter, None when the part has no
      disposition or the disposition has no such parameter. */
  function FilenameParam(o: Obj): Option<string> {
    if o.info.disposition.Some? then Params.ParameterOf(o.info.disposition.value.params, "filename") else None
  }

  /** A present but empty "filename" parameter is the file name: the content
      type's "name" parameter is then not consulted. */
  lemma EmptyFilenameWins()
    ensures Filename(Part(Info(Some(ContentType("application", "pdf", Param("name", "x", NoParam))),
      Some(RawDisposition("attachment", Param("filename", "", NoParam))), []), None)) == ""
    ensures Filename(Part(Info(Some(ContentType("application", "pdf", Param("name", "x", NoParam))),
      Some(RawDisposition("attachment", NoParam)), []), None)) == "x"
  {
  }

  /** The boundary of a multipart: its content type's "boundary" parameter,
      "" while none has been set. */
  function Boundary(o: Obj): string {
    if o.info.contentType.Some? then Params.Parameter(o.info.contentType.value.params, "boundary") else ""
  }

  /** The text of a leaf part's content, "" when it has none. Writing a
      data wrapper out starts from the beginning of its stream, so this is
      the whole data whatever the read position. */
  function Data(content: Option<DataWrapper>): string {
    if content.Some? then content.value.data else ""
  }

  /** A new, empty leaf part of content type `t/s`: the content type is set
      and recorded as its only header. */
  function NewPartWithType(t: string, s: string): (o: Obj)
    ensures o.Part? && o.content.None? && o.info.disposition.None?
    ensures MimeTypeOf(Some(o)) == t + "/" + s
    ensures o.info.headers == [Header("Content-Type", t + "/" + s)]
  {
    Part(Info(Some(ContentType(t, s, NoParam)), None, [Header("Content-Type", t + "/" + s)]), None)
  }

  /** A Go handle on a MIME object. */
  class ObjectRef {
    var node: Obj

    constructor (o: Obj)
      ensures node == o
    {
      node := o;
    }

    /** The content type, or nil when the object has none. */
    function ContentType(): (r: Option<ContentType>)
      reads this
      ensures r.Some? <==> node.info.contentType.Some?
      ensures r.Some? ==> r.value.MimeType() == MimeTypeOf(Some(node))
      ensures r.Some? ==> r.value.params == node.info.contentType.value.params
      ensures r == node.info.contentType
    {
      node.info.contentType
    }

    /** The content disposition, or nil when the object has none; a returned
        handle always holds a real disposition. */
    function ContentDisposition(): (r: Option<ContentDisposition>)
      reads this
      ensures r.Some? <==> node.info.disposition.Some?
      ensures r.Some? ==> r.value.raw == node.info.disposition
      ensures r.Some? ==> (r.value.IsAttachment() <==> node.info.disposition.value.disposition != "")
    {
      if node.info.disposition.Some? then Some(ContentDispositions.ContentDisposition(node.info.disposition)) else None
    }

    /** Sets header `name` to `value`, replacing the first header of that name
        in place and dropping later ones, or appending it. */
    method SetHeader(name: string, value: string)
      modifies this
      ensures node == old(node).(info := old(node).info.(headers := Set(old(node).info.headers, name, value)))
    {
      node := node.(info := node.info.(headers := Set(node.info.headers, name, value)));
    }

    /** The value of the first header named `name` (any letter case) and
        true, or "" and false when there is none. */
    function Header(name: string): (r: (string, bool))
      reads this
      ensures r.1 <==> HasName(node.info.headers, name)
      ensures r.1 ==>
        exists i :: 0 <= i < |node.info.headers| && NameEq(node.info.headers[i].name, name) &&
          r.0 == node.info.headers[i].value &&
          forall j :: 0 <= j < i ==> !NameEq(node.info.headers[j].name, name)
      ensures !r.1 ==> r.0 == ""
    {
      FindFirst(node.info.headers, name);
      match Find(node.info.headers, name)
      case Some(v) => (v, true)
      case None => ("", false)
    }

    /** The header block as text: one "Name: value" line per header, in
        order; empty exactly when the object has no headers. */
    function Headers(): (r: string)
      reads this
      ensures r == "" <==> node.info.headers == []
      ensures node.info.headers != [] ==> Line(node.info.headers[0]) <= r
      ensures r != "" ==> r[|r| - 1] == '\n'
    {
      RenderLines(node.info.headers);
      Render(node.info.headers)
    }

    /** WalkHeaders: calls `cb` on each header in order and stops at the
        first error, which it returns. An empty header list calls nothing. */
    method WalkHeaders<E>(cb: Header -> Option<E>) returns (visited: seq<Header>, err: Option<E>)
      ensures Walked(visited, err) == WalkAll(node.info.headers, cb)
    {
      var hs := node.info.headers;
      visited := [];
      err := None;
      if |hs| == 0 {
        return;
      }
      var i := 0;
      while true
        invariant 0 <= i < |hs|
        invariant visited == hs[..i]
        invariant forall j :: 0 <= j < i ==> cb(hs[j]).None?
        decreases |hs| - i
      {
        visited := visited + [hs[i]];
        var e := cb(hs[i]);
        if e.Some? {
          err := e;
          WalkAllStopsAt(hs, cb, i);
          return;
        }
        if i + 1 == |hs| {
          WalkAllSkip(hs, cb, |hs|);
          assert hs[..|hs|] == hs;
          return;
        }
        i := i + 1;
      }
    }
  }

  /** The header block of a text/plain object that was given three more
      headers lists them one line each, in the order they were set. */
  lemma {:induction false} ExampleBlock(ct: Header, h1: Header, h2: Header, h3: Header)
    requires ct == Header("Content-Type", "text/plain") && h1 == Header("X-SendGrid-Name", "hola!")
    requires h2 == Header("X-SendGrid-Name2", "hola2") && h3 == Header("X-SendGrid-Name3", "hola3")
    ensures Render([ct, h1, h2, h3]) ==
      "Content-Type: text/plain\n" + "X-SendGrid-Name: hola!\n" + "X-SendGrid-Name2: hola2\n" + "X-SendGrid-Name3: hola3\n"
  {
    RenderFour(ct, h1, h2, h3);
    assert Line(ct) == "Content-Type: text/plain\n";
    assert Line(h1) == "X-SendGrid-Name: hola!\n";
    assert Line(h2) == "X-SendGrid-Name2: hola2\n";
    assert Line(h3) == "X-SendGrid-Name3: hola3\n";
  }

  /** Each of the example's three headers is new when it is set, so each
      is appended; the header looked up as missing is not among the first
      two. */
  lemma {:induction false} ExampleNamesNew(ct: Header, h1: Header, h2: Header, h3: Header)
    requires ct == Header("Content-Type", "text/plain") && h1 == Header("X-SendGrid-Name", "hola!")
    requires h2 == Header("X-SendGrid-Name2", "hola2") && h3 == Header("X-SendGrid-Name3", "hola3")
    ensures Set([ct], h1.name, h1.value) == [ct, h1]
    ensures Set([ct, h1], h2.name, h2.value) == [ct, h1, h2]
    ensures Set([ct, h1, h2], h3.name, h3.value) == [ct, h1, h2, h3]
    ensures !HasName([ct, h1], "X-Not-Exists") && HasName([ct, h1], h1.name)
    ensures Find([ct, h1], h1.name) == Some(h1.value)
  {
    assert !NameEq(ct.name, "X-Not-Exists") by {
      assert Lower(ct.name)[0] != Lower("X-Not-Exists")[0];
    }
    assert !NameEq(h2.name, h3.name) by {
      assert Lower(h2.name)[15] != Lower(h3.name)[15];
    }
    SetAppendsNew([ct], h1.name, h1.value);
    SetAppendsNew([ct, h1], h2.name, h2.value);
    SetAppendsNew([ct, h1, h2], h3.name, h3.value);
    FindFirst([ct, h1], h1.name);
  }

  /** A text/plain object given three further headers: lookups find what was
      set, a header never set is absent, and the header block lists the
      content type first and the others in the order they were set. */
  method HeaderExample() returns (found: (string, bool), missing: (string, bool), block: string)
    ensures found == ("hola!", true)
    ensures missing == ("", false)
    ensures block ==
      "Content-Type: text/plain\n" + "X-SendGrid-Name: hola!\n" + "X-SendGrid-Name2: hola2\n" + "X-SendGrid-Name3: hola3\n"
  {
    var ct := Header("Content-Type", "text/plain");
    var h1 := Header("X-SendGrid-Name", "hola!");
    var h2 := Header("X-SendGrid-Name2", "hola2");
    var h3 := Header("X-SendGrid-Name3", "hola3");
    var part := new ObjectRef(NewPartWithType("text", "plain"));
    assert "text" + "/" + "plain" == ct.value;
    ExampleNamesNew(ct, h1, h2, h3);
    part.SetHeader(h1.name, h1.value);
    found := part.Header(h1.name);
    missing := part.Header("X-Not-Exists");
    part.SetHeader(h2.name, h2.value);
    part.SetHeader(h3.name, h3.value);
    block := part.Headers();
    ExampleBlock(ct, h1, h2, h3);
  }
}
