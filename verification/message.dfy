/** The Go Message handle: a message's own headers, its subject and message
    id, its To/Cc/Bcc recipient lists, and its root MIME part. */
module Messages {
  import opened Util
  import opened HeaderLists
  import opened Objects
  import opened Addresses

  /** The three recipient lists a message keeps. */
  datatype RecipientType = ToRecipient | CcRecipient | BccRecipient

  /** The header each recipient list is shown in. */
  function HeaderName(t: RecipientType): string {
    match t
    case ToRecipient => "To"
    case CcRecipient => "Cc"
    case BccRecipient => "Bcc"
  }

  /** The header value a Message-Id is shown as. */
  function AngleAddr(id: string): string {
    "<" + id + ">"
  }

  /** Setting the header of recipient list `t` changes what is found under
      that name and under no other name the message keeps in step. */
  lemma {:induction false} SetRecipientHeader(hs: seq<Header>, t: RecipientType, v: string)
    ensures Find(Set(hs, HeaderName(t), v), HeaderName(t)) == Some(v)
    ensures forall u :: u != t ==> Find(Set(hs, HeaderName(t), v), HeaderName(u)) == Find(hs, HeaderName(u))
    ensures Find(Set(hs, HeaderName(t), v), "Subject") == Find(hs, "Subject")
    ensures Find(Set(hs, HeaderName(t), v), "Message-Id") == Find(hs, "Message-Id")
  {
    var n := HeaderName(t);
    DistinctFieldNames();
    forall u | u != t ensures Find(Set(hs, n, v), HeaderName(u)) == Find(hs, HeaderName(u)) {
      SetKeepsOthers(hs, n, HeaderName(u), v);
    }
    SetKeepsOthers(hs, n, "Subject", v);
    SetKeepsOthers(hs, n, "Message-Id", v);
    SetThenFind(hs, n, n, v);
  }

  /** Setting the Subject or Message-Id header (`n`) changes what is found
      under `n` and under no recipient header nor the other one (`other`). */
  lemma {:induction false} SetFieldHeader(hs: seq<Header>, n: string, other: string, v: string)
    requires forall t :: !NameEq(HeaderName(t), n)
    requires !NameEq(other, n)
    ensures Find(Set(hs, n, v), n) == Some(v)
    ensures forall t :: Find(Set(hs, n, v), HeaderName(t)) == Find(hs, HeaderName(t))
    ensures Find(Set(hs, n, v), other) == Find(hs, other)
  {
    forall t ensures Find(Set(hs, n, v), HeaderName(t)) == Find(hs, HeaderName(t)) {
      SetKeepsOthers(hs, n, HeaderName(t), v);
    }
    SetKeepsOthers(hs, n, other, v);
    SetThenFind(hs, n, n, v);
  }

  /** The five headers the message keeps in step with its fields have
      pairwise different names, in any letter case. */
  lemma DistinctFieldNames()
    ensures !NameEq("To", "Cc") && !NameEq("To", "Bcc") && !NameEq("Cc", "Bcc")
    ensures forall t :: !NameEq(HeaderName(t), "Subject") && !NameEq(HeaderName(t), "Message-Id")
    ensures !NameEq("Subject", "Message-Id")
    ensures forall t, u :: t != u ==> !NameEq(HeaderName(t), HeaderName(u))
  {
    assert Lower("To")[0] != Lower("Cc")[0];
  }

  /** Recipient list `t` out of the three lists. */
  function ListOf(t: RecipientType, to: seq<Mailbox>, cc: seq<Mailbox>, bcc: seq<Mailbox>): seq<Mailbox> {
    match t
    case ToRecipient => to
    case CcRecipient => cc
    case BccRecipient => bcc
  }

  /** The header list `hs` shows each non-empty recipient list, formatted,
      under its own header name and has no such header for an empty list; it
      shows the subject and the message id (in angle brackets) once they are
      set. */
  predicate Shows(hs: seq<Header>, to: seq<Mailbox>, cc: seq<Mailbox>, bcc: seq<Mailbox>,
                  subject: Option<string>, messageId: Option<string>)
  {
    && (forall t :: Find(hs, HeaderName(t)) ==
          if ListOf(t, to, cc, bcc) == [] then None else Some(FormatList(ListOf(t, to, cc, bcc))))
    && Find(hs, "Subject") == subject
    && Find(hs, "Message-Id") == (if messageId.Some? then Some(AngleAddr(messageId.value)) else None)
  }

  /** Replacing the Subject header keeps the header list in step with the
      new subject and the unchanged lists and id. */
  lemma {:induction false} SetSubjectShows(hs: seq<Header>, to: seq<Mailbox>, cc: seq<Mailbox>, bcc: seq<Mailbox>,
                                           subject: Option<string>, messageId: Option<string>, s: string)
    requires Shows(hs, to, cc, bcc, subject, messageId)
    ensures Shows(Set(hs, "Subject", s), to, cc, bcc, Some(s), messageId)
  {
    DistinctFieldNames();
    SetFieldHeader(hs, "Subject", "Message-Id", s);
  }

  /** Replacing the Message-Id header with the id in angle brackets keeps
      the header list in step with the new id. */
  lemma {:induction false} SetMessageIdShows(hs: seq<Header>, to: seq<Mailbox>, cc: seq<Mailbox>, bcc: seq<Mailbox>,
                                             subject: Option<string>, messageId: Option<string>, id: string)
    requires Shows(hs, to, cc, bcc, subject, messageId)
    ensures Shows(Set(hs, "Message-Id", AngleAddr(id)), to, cc, bcc, subject, Some(id))
  {
    DistinctFieldNames();
    SetFieldHeader(hs, "Message-Id", "Subject", AngleAddr(id));
  }

  /** Appending a mailbox to list `t` and re-setting that list's header
      keeps the header list in step with the new lists. */
  lemma {:induction false} AddRecipientShows(hs: seq<Header>, to: seq<Mailbox>, cc: seq<Mailbox>, bcc: seq<Mailbox>,
                                             subject: Option<string>, messageId: Option<string>, t: RecipientType,
                                             to2: seq<Mailbox>, cc2: seq<Mailbox>, bcc2: seq<Mailbox>)
    requires Shows(hs, to, cc, bcc, subject, messageId)
    requires ListOf(t, to2, cc2, bcc2) != []
    requires forall u :: u != t ==> ListOf(u, to2, cc2, bcc2) == ListOf(u, to, cc, bcc)
    ensures Shows(Set(hs, HeaderName(t), FormatList(ListOf(t, to2, cc2, bcc2))), to2, cc2, bcc2, subject, messageId)
  {
    var v := FormatList(ListOf(t, to2, cc2, bcc2));
    SetRecipientHeader(hs, t, v);
  }

  class Message {
    var headers: seq<Header>
    var subject: Option<string>
    var messageId: Option<string>
    var to: seq<Mailbox>
    var cc: seq<Mailbox>
    var bcc: seq<Mailbox>
    var mimePart: Option<Obj>

    /** The recipient list of type `t`. */
    function Recipients(t: RecipientType): seq<Mailbox>
      reads this
    {
      ListOf(t, to, cc, bcc)
    }

    /** The header list is in step with the recipient lists, the subject and
        the message id. */
    predicate Valid()
      reads this
    {
      Shows(headers, to, cc, bcc, subject, messageId)
    }

    /** NewMessage: no headers, no recipients, no subject, no id, no root
        part. */
    constructor ()
      ensures Valid()
      ensures headers == [] && to == [] && cc == [] && bcc == []
      ensures subject.None? && messageId.None? && mimePart.None?
    {
      headers := [];
      subject := None;
      messageId := None;
      to := [];
      cc := [];
      bcc := [];
      mimePart := None;
    }

    /** SetSubject: the subject is replaced, and so is the Subject header. */
    method SetSubject(s: string)
      requires Valid()
      modifies this
      ensures Valid()
      ensures subject == Some(s)
      ensures headers == Set(old(headers), "Subject", s)
      ensures messageId == old(messageId) && mimePart == old(mimePart)
      ensures to == old(to) && cc == old(cc) && bcc == old(bcc)
    {
      SetSubjectShows(headers, to, cc, bcc, subject, messageId, s);
      headers := Set(headers, "Subject", s);
      subject := Some(s);
    }

    /** Subject: the subject and true once one was set, otherwise "" and
        false. */
    function Subject(): (r: (string, bool))
      reads this
      ensures r.1 <==> subject.Some?
      ensures r.0 == subject.GetOr("")
    {
      if subject.Some? then (subject.value, true) else ("", false)
    }

    /** SetMessageId: the id is replaced, and the Message-Id header shows it
        in angle brackets. */
    method SetMessageId(id: string)
      requires Valid()
      modifies this
      ensures Valid()
      ensures messageId == Some(id)
      ensures headers == Set(old(headers), "Message-Id", AngleAddr(id))
      ensures subject == old(subject) && mimePart == old(mimePart)
      ensures to == old(to) && cc == old(cc) && bcc == old(bcc)
    {
      SetMessageIdShows(headers, to, cc, bcc, subject, messageId, id);
      headers := Set(headers, "Message-Id", AngleAddr(id));
      messageId := Some(id);
    }

    /** MessageId: the id and true once one was set, otherwise "" and false. */
    function MessageId(): (r: (string, bool))
      reads this
      ensures r.1 <==> messageId.Some?
      ensures r.0 == messageId.GetOr("")
    {
      if messageId.Some? then (messageId.value, true) else ("", false)
    }

    /** addRecipient: appends a mailbox to list `t`, leaves the other lists
        alone, and re-shows list `t` in its header. */
    method AddRecipient(t: RecipientType, name: string, address: string)
      requires Valid()
      modifies this
      ensures Valid()
      ensures Recipients(t) == old(Recipients(t)) + [Mailbox(name, address)]
      ensures forall u :: u != t ==> Recipients(u) == old(Recipients(u))
      ensures headers == Set(old(headers), HeaderName(t), FormatList(Recipients(t)))
      ensures subject == old(subject) && messageId == old(messageId) && mimePart == old(mimePart)
    {
      var list := Recipients(t) + [Mailbox(name, address)];
      ghost var hs, to0, cc0, bcc0 := headers, to, cc, bcc;
      if t == ToRecipient {
        to := list;
      } else if t == CcRecipient {
        cc := list;
      } else {
        bcc := list;
      }
      AddRecipientShows(hs, to0, cc0, bcc0, subject, messageId, t, to, cc, bcc);
      headers := Set(headers, HeaderName(t), FormatList(list));
    }

    /** AddTo: adds a mailbox to the To list. */
    method AddTo(name: string, address: string)
      requires Valid()
      modifies this
      ensures Valid()
      ensures to == old(to) + [Mailbox(name, address)] && cc == old(cc) && bcc == old(bcc)
      ensures headers == Set(old(headers), "To", FormatList(to))
      ensures subject == old(subject) && messageId == old(messageId) && mimePart == old(mimePart)
    {
      AddRecipient(ToRecipient, name, address);
      assert Recipients(CcRecipient) == old(Recipients(CcRecipient));
      assert Recipients(BccRecipient) == old(Recipients(BccRecipient));
    }

    /** AddCc: adds a mailbox to the Cc list. */
    method AddCc(name: string, address: string)
      requires Valid()
      modifies this
      ensures Valid()
      ensures cc == old(cc) + [Mailbox(name, address)] && to == old(to) && bcc == old(bcc)
      ensures headers == Set(old(headers), "Cc", FormatList(cc))
      ensures subject == old(subject) && messageId == old(messageId) && mimePart == old(mimePart)
    {
      AddRecipient(CcRecipient, name, address);
      assert Recipients(ToRecipient) == old(Recipients(ToRecipient));
      assert Recipients(BccRecipient) == old(Recipients(BccRecipient));
    }

    /** AddBcc: adds a mailbox to the Bcc list. */
    method AddBcc(name: string, address: string)
      requires Valid()
      modifies this
      ensures Valid()
      ensures bcc == old(bcc) + [Mailbox(name, address)] && to == old(to) && cc == old(cc)
      ensures headers == Set(old(headers), "Bcc", FormatList(bcc))
      ensures subject == old(subject) && messageId == old(messageId) && mimePart == old(mimePart)
    {
      AddRecipient(BccRecipient, name, address);
      assert Recipients(ToRecipient) == old(Recipients(ToRecipient));
      assert Recipients(CcRecipient) == old(Recipients(CcRecipient));
    }

    /** AllRecipients: a new list holding the To, then the Cc, then the Bcc
        mailboxes, each list in its own order. */
    function AllRecipients(): (r: seq<Mailbox>)
      reads this
      ensures |r| == |to| + |cc| + |bcc|
      ensures r[..|to|] == to && r[|to|..|to| + |cc|] == cc && r[|to| + |cc|..] == bcc
    {
      to + cc + bcc
    }

    /** SetMimePart: only an object the Go side sees as a Part (a leaf part or
        a partial) or as a Multipart becomes the root; anything else is
        ignored. */
    method SetMimePart(p: Option<Obj>)
      requires Valid()
      modifies this
      ensures Valid()
      ensures IsGoPart(p) || IsGoMultipart(p) ==> mimePart == p
      ensures !(IsGoPart(p) || IsGoMultipart(p)) ==> mimePart == old(mimePart)
      ensures headers == old(headers) && subject == old(subject) && messageId == old(messageId)
      ensures to == old(to) && cc == old(cc) && bcc == old(bcc)
    {
      if IsGoPart(p) {
        mimePart := p;
      } else if IsGoMultipart(p) {
        mimePart := p;
      }
    }

    /** The value of the first message header named `name` and true, or ""
        and false. */
    function Header(name: string): (r: (string, bool))
      reads this
      ensures r.1 <==> HasName(headers, name)
      ensures r.1 ==> Some(r.0) == Find(headers, name)
      ensures !r.1 ==> r.0 == ""
    {
      FindFirst(headers, name);
      match Find(headers, name)
      case Some(v) => (v, true)
      case None => ("", false)
    }

    /** The message's header block: its own headers, then, when it has a root
        part, a MIME-Version line (unless the message already has that
        header) and the root part's headers. */
    function Headers(): (r: string)
      reads this
      ensures Render(headers) <= r
      ensures mimePart.None? ==> r == Render(headers)
      ensures mimePart.Some? && !HasName(headers, "MIME-Version") ==>
        r == Render(headers) + "MIME-Version: 1.0\n" + Render(mimePart.value.info.headers)
      ensures mimePart.Some? && HasName(headers, "MIME-Version") ==>
        r == Render(headers) + Render(mimePart.value.info.headers)
    {
      Render(headers) +
        if mimePart.None? then ""
        else (if HasName(headers, "MIME-Version") then "" else "MIME-Version: 1.0\n") + Render(mimePart.value.info.headers)
    }
  }

  /** A second subject replaces the first. */
  method SubjectExample() returns (subject: (string, bool))
    ensures subject == ("hola 2", true)
  {
    var m := new Message();
    m.SetSubject("hola");
    m.SetSubject("hola 2");
    subject := m.Subject();
  }

  /** A second message id replaces the first. */
  method MessageIdExample() returns (id: (string, bool))
    ensures id == ("hola 2", true)
  {
    var m := new Message();
    m.SetMessageId("hola");
    m.SetMessageId("hola 2");
    id := m.MessageId();
  }

  /** Two mailboxes added to To are formatted in the order they were added. */
  method ToExample() returns (toList: string)
    ensures toList == "hola" + " <" + "kickass@example.com" + ">" + ", " + "hola2" + " <" + "kickass2@example.com" + ">"
  {
    var a := Mailbox("hola", "kickass@example.com");
    var b := Mailbox("hola2", "kickass2@example.com");
    var m := new Message();
    m.AddTo(a.name, a.address);
    m.AddTo(b.name, b.address);
    assert m.to == [a] + [b];
    toList := FormatList(m.to);
    FormatPair(a, b);
  }

  /** One mailbox in each list: all recipients are the To, Cc and Bcc
      mailboxes in that order. */
  method AllRecipientsExample() returns (all: seq<Mailbox>)
    ensures all == [Mailbox("TO", "to@example.com"), Mailbox("CC", "cc@example.com"), Mailbox("BCC", "bcc@example.com")]
  {
    var m := new Message();
    m.AddTo("TO", "to@example.com");
    m.AddCc("CC", "cc@example.com");
    m.AddBcc("BCC", "bcc@example.com");
    all := m.AllRecipients();
  }

  /** A leaf part, and likewise a multipart, set as the root is read back as
      the Go type it was; an object wrapping a C NULL, which the Go side
      sees as a plain object, leaves the root as it was. */
  method MimePartExample() returns (partOk: bool, multipartOk: bool, nullKept: bool)
    ensures partOk && multipartOk && nullKept
  {
    var m := new Message();
    var part := NewPartWithType("text", "plain");
    GoTypeAssertions(Some(part));
    m.SetMimePart(Some(part));
    partOk := IsGoPart(m.mimePart);
    var mp := Obj.Multipart(Info(None, None, []), []);
    GoTypeAssertions(Some(mp));
    m.SetMimePart(Some(mp));
    multipartOk := IsGoMultipart(m.mimePart);
    GoTypeAssertions(None);
    m.SetMimePart(None);
    nullKept := m.mimePart == Some(mp);
  }
}
