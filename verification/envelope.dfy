/** The Go Envelope handle on a parsed message: its header list, its six
    address lists and its root MIME part. */
module Envelopes {
  import opened Util
  import opened HeaderLists
  import opened Walks
  import opened Objects
  import opened Addresses
  import opened PartIters
  import Multiparts

  /** The address lists a message keeps. */
  datatype AddressField = From | Sender | ReplyTo | To | Cc | Bcc

  /** The lower-case header name each address list answers to. */
  function FieldName(f: AddressField): string {
    match f
    case From => "from"
    case Sender => "sender"
    case ReplyTo => "reply-to"
    case To => "to"
    case Cc => "cc"
    case Bcc => "bcc"
  }

  /** The switch on the lower-cased header name that every address operation
      starts with: the list it names, or None for any other name. */
  function AddressFieldOf(header: string): (r: Option<AddressField>)
    ensures r.Some? ==> Lower(header) == FieldName(r.value)
    ensures r.None? ==> forall f :: Lower(header) != FieldName(f)
  {
    var l := Lower(header);
    if l == "from" then Some(From)
    else if l == "sender" then Some(Sender)
    else if l == "reply-to" then Some(ReplyTo)
    else if l == "to" then Some(To)
    else if l == "cc" then Some(Cc)
    else if l == "bcc" then Some(Bcc)
    else None
  }

  /** The header name the library writes an address list under when the
      list changes. */
  function AddressHeader(f: AddressField): (r: string)
    ensures Lower(r) == FieldName(f)
  {
    match f
    case From => assert Lower("From") == "from"; "From"
    case Sender => assert Lower("Sender") == "sender"; "Sender"
    case ReplyTo => assert Lower("Reply-To") == "reply-to"; "Reply-To"
    case To => assert Lower("To") == "to"; "To"
    case Cc => assert Lower("Cc") == "cc"; "Cc"
    case Bcc => assert Lower("Bcc") == "bcc"; "Bcc"
  }

  /** The mailboxes the library's address parser `parse` reads from every
      header named `n`, in list order: how an address list is rebuilt from
      the headers after one of them is removed. A header the parser cannot
      read adds nothing. */
  function Reparsed(hs: seq<Header>, n: string, parse: string -> Option<seq<Mailbox>>): seq<Mailbox> {
    if hs == [] then []
    else (if NameEq(hs[0].name, n) then parse(hs[0].value).GetOr([]) else []) + Reparsed(hs[1..], n, parse)
  }

  /** With no header of that name left, the rebuilt list is empty. */
  lemma {:induction false} ReparsedNone(hs: seq<Header>, n: string, parse: string -> Option<seq<Mailbox>>)
    requires !HasName(hs, n)
    ensures Reparsed(hs, n, parse) == []
  {
    if hs != [] {
      assert !NameEq(hs[0].name, n);
      assert !HasName(hs[1..], n) by {
        forall k | 0 <= k < |hs[1..]| ensures !NameEq(hs[1..][k].name, n) {
          assert hs[1..][k] == hs[k + 1];
        }
      }
      ReparsedNone(hs[1..], n, parse);
    }
  }

  /** Every name an address operation accepts designates the same header as
      the name the list is written under. */
  lemma AddressHeaderMatches(header: string)
    requires AddressFieldOf(header).Some?
    ensures NameEq(header, AddressHeader(AddressFieldOf(header).value))
  {
  }

  /** The HTML part AddHTMLAlternativeToPlainText creates: a text/html leaf
      holding `content`. */
  function HtmlPart(content: string): (o: Obj)
    ensures o.Part? && MimeTypeOf(Some(o)) == "text/html"
    ensures o.content == Some(DataWrapper(content, "", 0))
  {
    var p := NewPartWithType("text", "html");
    p.(content := Some(DataWrapper(content, "", 0)))
  }

  class Envelope {
    var headers: seq<Header>
    var addresses: map<AddressField, seq<Mailbox>>
    var root: Option<Obj>

    /** Every address list exists. */
    predicate Valid()
      reads this
    {
      forall f :: f in addresses
    }

    /** An envelope as Parse leaves it: the parsed headers, address lists and
        root part. */
    constructor (hs: seq<Header>, lists: map<AddressField, seq<Mailbox>>, r: Option<Obj>)
      requires forall f :: f in lists
      ensures Valid()
      ensures headers == hs && addresses == lists && root == r
    {
      headers := hs;
      addresses := lists;
      root := r;
    }

    /** Subject: the Subject header, "" when there is none. */
    function Subject(): (r: string)
      reads this
      ensures HasName(headers, "Subject") ==> Some(r) == Find(headers, "Subject")
      ensures !HasName(headers, "Subject") ==> r == ""
    {
      FindFirst(headers, "Subject");
      Find(headers, "Subject").GetOr("")
    }

    /** SetSubject: sets the Subject header. */
    method SetSubject(subject: string)
      modifies this
      ensures headers == Set(old(headers), "Subject", subject)
      ensures addresses == old(addresses) && root == old(root)
    {
      headers := Set(headers, "Subject", subject);
    }

    /** SetHeader: an address header is refused with an error naming it;
        any other header is set (first entry replaced, later ones dropped, or
        appended). */
    method SetHeader(name: string, value: string) returns (err: Option<string>)
      modifies this
      ensures AddressFieldOf(name).Some? ==>
        err == Some("use AddAddress for " + name) && headers == old(headers)
      ensures AddressFieldOf(name).None? ==>
        err.None? && headers == Set(old(headers), name, value)
      ensures addresses == old(addresses) && root == old(root)
    {
      if AddressFieldOf(name).Some? {
        return Some("use AddAddress for " + name);
      }
      headers := Set(headers, name, value);
      err := None;
    }

    /** Adding a mailbox to a list (the library's list add): the mailbox goes
        at the end of list `f`, and the changed list is written back as its
        header, replacing the first header of that name and dropping later
        ones, or appended when there is none. */
    method ListAdd(f: AddressField, m: Mailbox)
      requires Valid()
      modifies this
      ensures Valid()
      ensures addresses == old(addresses)[f := old(addresses)[f] + [m]]
      ensures headers == Set(old(headers), AddressHeader(f), FormatList(old(addresses)[f] + [m]))
      ensures root == old(root)
    {
      addresses := addresses[f := addresses[f] + [m]];
      headers := Set(headers, AddressHeader(f), FormatList(addresses[f]));
    }

    /** AddAddress: appends the mailbox to the list the header names, or
        reports that the header is not an address header. The changed list
        is written back as its header. */
    method AddAddress(header: string, name: string, address: string) returns (err: Option<string>)
      requires Valid()
      modifies this
      ensures Valid()
      ensures AddressFieldOf(header).None? ==>
        err == Some("can't add to header " + header) && addresses == old(addresses) && headers == old(headers)
      ensures AddressFieldOf(header).Some? ==> err.None?
      ensures AddressFieldOf(header).Some? ==>
        var f := AddressFieldOf(header).value;
        addresses == old(addresses)[f := old(addresses)[f] + [Mailbox(name, address)]] &&
        headers == Set(old(headers), AddressHeader(f), FormatList(addresses[f])) &&
        Find(headers, header) == Some(FormatList(addresses[f])) &&
        Contains(Find(headers, header).value, address)
      ensures root == old(root)
    {
      var field := AddressFieldOf(header);
      if field.None? {
        return Some("can't add to header " + header);
      }
      var f := field.value;
      ListAdd(f, Mailbox(name, address));
      AddressHeaderMatches(header);
      SetThenFind(old(headers), AddressHeader(f), header, FormatList(addresses[f]));
      FormatListShowsLast(old(addresses)[f], Mailbox(name, address));
      err := None;
    }

    /** ParseAndAppendAddresses: parses `list` with the library's address
        parser `parse` and appends what it recognised, writing the list back
        as its header; a text it cannot parse at all changes nothing and is
        not an error. */
    method ParseAndAppendAddresses(header: string, list: string, parse: string -> Option<seq<Mailbox>>)
      returns (err: Option<string>)
      requires Valid()
      modifies this
      ensures Valid()
      ensures AddressFieldOf(header).None? ==>
        err == Some("can't append addresses to header " + header) && addresses == old(addresses) && headers == old(headers)
      ensures AddressFieldOf(header).Some? && parse(list).None? ==>
        err.None? && addresses == old(addresses) && headers == old(headers)
      ensures AddressFieldOf(header).Some? && parse(list).Some? ==> err.None?
      ensures AddressFieldOf(header).Some? && parse(list).Some? ==>
        var f := AddressFieldOf(header).value;
        addresses == old(addresses)[f := old(addresses)[f] + parse(list).value] &&
        headers == Set(old(headers), AddressHeader(f), FormatList(addresses[f])) &&
        Find(headers, header) == Some(FormatList(addresses[f]))
      ensures root == old(root)
    {
      var field := AddressFieldOf(header);
      if field.None? {
        return Some("can't append addresses to header " + header);
      }
      var parsed := parse(list);
      if parsed.Some? {
        var f := field.value;
        addresses := addresses[f := addresses[f] + parsed.value];
        headers := Set(headers, AddressHeader(f), FormatList(addresses[f]));
        AddressHeaderMatches(header);
        SetThenFind(old(headers), AddressHeader(f), header, FormatList(addresses[f]));
      }
      err := None;
    }

    /** The loop of AppendAddressList: adds the mailboxes one by one, in
        order, to list `f`; each addition writes the list back as its
        header, so an empty input leaves the headers as they were. */
    method AddEach(f: AddressField, addrs: seq<Mailbox>)
      requires Valid()
      modifies this
      ensures Valid()
      ensures addresses == old(addresses)[f := old(addresses)[f] + addrs]
      ensures addrs == [] ==> headers == old(headers)
      ensures addrs != [] ==> headers == Set(old(headers), AddressHeader(f), FormatList(old(addresses)[f] + addrs))
      ensures root == old(root)
    {
      var n := AddressHeader(f);
      ghost var start := old(addresses)[f];
      ghost var cur := start;
      var i := 0;
      while i < |addrs|
        invariant 0 <= i <= |addrs|
        invariant Valid()
        invariant cur == start + addrs[..i]
        invariant addresses == old(addresses)[f := cur]
        invariant i == 0 ==> headers == old(headers)
        invariant i > 0 ==> headers == Set(old(headers), n, FormatList(cur))
        invariant root == old(root)
      {
        ListAdd(f, addrs[i]);
        UpdateTwice(old(addresses), f, cur, cur + [addrs[i]]);
        if i > 0 {
          SetTwice(old(headers), n, FormatList(cur), FormatList(cur + [addrs[i]]));
        }
        assert addrs[..i + 1] == addrs[..i] + [addrs[i]];
        AppendAssoc(start, addrs[..i], [addrs[i]]);
        cur := cur + [addrs[i]];
        i := i + 1;
      }
      assert addrs[..|addrs|] == addrs;
    }

    /** AppendAddressList: adds the mailboxes one by one, in order, to the
        list the header names; each addition writes the list back as its
        header, so an empty input leaves the headers as they were. */
    method AppendAddressList(header: string, addrs: seq<Mailbox>) returns (err: Option<string>)
      requires Valid()
      modifies this
      ensures Valid()
      ensures AddressFieldOf(header).None? ==>
        err == Some("can't append addresses to header " + header) && addresses == old(addresses) && headers == old(headers)
      ensures AddressFieldOf(header).Some? ==> err.None?
      ensures AddressFieldOf(header).Some? ==>
        var f := AddressFieldOf(header).value;
        addresses == old(addresses)[f := old(addresses)[f] + addrs]
      ensures AddressFieldOf(header).Some? && addrs == [] ==> headers == old(headers)
      ensures AddressFieldOf(header).Some? && addrs != [] ==>
        var f := AddressFieldOf(header).value;
        headers == Set(old(headers), AddressHeader(f), FormatList(addresses[f])) &&
        Find(headers, header) == Some(FormatList(addresses[f]))
      ensures root == old(root)
    {
      var field := AddressFieldOf(header);
      if field.None? {
        return Some("can't append addresses to header " + header);
      }
      var f := field.value;
      AddEach(f, addrs);
      if addrs != [] {
        AddressHeaderMatches(header);
        SetThenFind(old(headers), AddressHeader(f), header, FormatList(addresses[f]));
      }
      err := None;
    }

    /** ClearAddress: empties the list the header names and writes the empty
        list back, so the header stays with an empty value. */
    method ClearAddress(header: string) returns (err: Option<string>)
      requires Valid()
      modifies this
      ensures Valid()
      ensures AddressFieldOf(header).None? ==>
        err == Some("unknown header " + header) && addresses == old(addresses) && headers == old(headers)
      ensures AddressFieldOf(header).Some? ==>
        var f := AddressFieldOf(header).value;
        err.None? && addresses == old(addresses)[f := []] &&
        headers == Set(old(headers), AddressHeader(f), "") &&
        Find(headers, header) == Some("")
      ensures root == old(root)
    {
      var field := AddressFieldOf(header);
      if field.None? {
        return Some("unknown header " + header);
      }
      var f := field.value;
      addresses := addresses[f := []];
      headers := Set(headers, AddressHeader(f), FormatList(addresses[f]));
      AddressHeaderMatches(header);
      SetThenFind(old(headers), AddressHeader(f), header, "");
      err := None;
    }

    /** RemoveHeader: removes the first header named `name`; true when there
        was one. Removing an address header rebuilds its list, with the
        library's address parser `parse`, from the headers of that name that
        are left, so removing the only one empties the list. */
    method RemoveHeader(name: string, parse: string -> Option<seq<Mailbox>>) returns (removed: bool)
      requires Valid()
      modifies this
      ensures Valid()
      ensures removed <==> HasName(old(headers), name)
      ensures headers == RemoveFirst(old(headers), name)
      ensures removed ==> |headers| == |old(headers)| - 1
      ensures !removed ==> headers == old(headers)
      ensures removed && AddressFieldOf(name).Some? ==>
        addresses == old(addresses)[AddressFieldOf(name).value := Reparsed(headers, name, parse)]
      ensures removed && AddressFieldOf(name).Some? && !HasName(headers, name) ==>
        addresses == old(addresses)[AddressFieldOf(name).value := []]
      ensures !removed || AddressFieldOf(name).None? ==> addresses == old(addresses)
      ensures root == old(root)
    {
      RemoveFirstMeaning(headers, name);
      removed := HasName(headers, name);
      headers := RemoveFirst(headers, name);
      var field := AddressFieldOf(name);
      if removed && field.Some? {
        addresses := addresses[field.value := Reparsed(headers, name, parse)];
        if !HasName(headers, name) {
          ReparsedNone(headers, name, parse);
        }
      }
    }

    /** RemoveAllHeaders: removes headers named `name` one at a time until
        none is left; true when at least one was removed. An address list
        whose headers are all removed ends up empty. */
    method RemoveAllHeaders(name: string, parse: string -> Option<seq<Mailbox>>) returns (removed: bool)
      requires Valid()
      modifies this
      ensures Valid()
      ensures headers == WithoutName(old(headers), name)
      ensures !HasName(headers, name)
      ensures removed <==> HasName(old(headers), name)
      ensures removed && AddressFieldOf(name).Some? ==>
        addresses == old(addresses)[AddressFieldOf(name).value := []]
      ensures !removed || AddressFieldOf(name).None? ==> addresses == old(addresses)
      ensures root == old(root)
    {
      var next := true;
      removed := false;
      while next
        invariant Valid()
        invariant WithoutName(headers, name) == WithoutName(old(headers), name)
        invariant !removed ==> headers == old(headers)
        invariant removed ==> HasName(old(headers), name)
        invariant !next ==> !HasName(headers, name)
        invariant removed && AddressFieldOf(name).Some? ==>
          addresses == old(addresses)[AddressFieldOf(name).value := Reparsed(headers, name, parse)]
        invariant !removed || AddressFieldOf(name).None? ==> addresses == old(addresses)
        invariant root == old(root)
        decreases |headers|, next
      {
        RemoveFirstMeaning(headers, name);
        ghost var before := addresses;
        next := RemoveHeader(name, parse);
        if next && removed && AddressFieldOf(name).Some? {
          var f := AddressFieldOf(name).value;
          assert before == old(addresses)[f := before[f]];
          assert addresses == before[f := Reparsed(headers, name, parse)];
          UpdateTwice(old(addresses), f, before[f], Reparsed(headers, name, parse));
        }
        removed := removed || next;
      }
      assert headers == WithoutName(old(headers), name) by {
        WithoutNameMeaning(headers, name, name);
      }
      if removed && AddressFieldOf(name).Some? {
        ReparsedNone(headers, name, parse);
      }
    }

    /** Header: the value of the first header named `name` (any letter
        case), "" when there is none. */
    function Header(name: string): (r: string)
      reads this
      ensures HasName(headers, name) ==> Some(r) == Find(headers, name)
      ensures !HasName(headers, name) ==> r == ""
    {
      FindFirst(headers, name);
      Find(headers, name).GetOr("")
    }

    /** Headers: every header name, exactly as spelled, mapped to the values
        of the headers so spelled, in list order. */
    method Headers() returns (r: map<string, seq<string>>)
      ensures forall n :: n in r <==> HasExactName(headers, n)
      ensures forall n :: n in r ==> r[n] == ValuesNamed(headers, n) && r[n] != []
    {
      r := map[];
      var i := 0;
      while i < |headers|
        invariant 0 <= i <= |headers|
        invariant forall n :: n in r <==> HasExactName(headers[..i], n)
        invariant forall n :: n in r ==> r[n] == ValuesNamed(headers[..i], n)
      {
        var h := headers[i];
        ghost var before := r;
        if h.name !in r {
          r := r[h.name := []];
        }
        r := r[h.name := r[h.name] + [h.value]];
        GroupStep(headers, i, before, r);
        i := i + 1;
      }
      assert headers[..|headers|] == headers;
      forall n | n in r ensures r[n] != [] {
        ValuesNamedPresent(headers, n);
      }
    }

    /** ContentType: the root part's "type/subtype", "" when there is no
        root part or it has no content type. */
    function ContentType(): (r: string)
      reads this
      ensures r == MimeTypeOf(root)
      ensures root.None? ==> r == ""
      ensures root.Some? && root.value.info.contentType.None? ==> r == ""
      ensures root.Some? && root.value.info.contentType.Some? ==>
        r == root.value.info.contentType.value.mediaType + "/" + root.value.info.contentType.value.subtype
    {
      MimeTypeOf(root)
    }

    /** Walk: calls `cb` on what the native part iterator shows, step by
        step, stopping at the first error; with nothing to visit the callback
        still sees one NULL part. */
    method Walk<E>(cb: Option<Obj> -> Option<E>) returns (visited: seq<Option<Obj>>, err: Option<E>)
      ensures Walked(visited, err) == WalkAll(NativeRest(NativeOrder(root), 0), cb)
    {
      var it := new NativePartIter(root);
      ghost var all := NativeRest(it.order, 0);
      NativeRestAt(it.order, 0);
      WalkStart(all, cb);
      visited := [];
      err := None;
      while true
        invariant fresh(it) && it.Valid() && it.order == NativeOrder(root)
        invariant |it.order| == 0 ==> it.pos == 0
        invariant it.pos < |all|
        invariant WalkedUpTo(all, cb, it.pos, visited)
        decreases |all| - it.pos
      {
        ghost var p := it.pos;
        NativeRestAt(it.order, p);
        var current := it.Current();
        WalkStep(all, cb, p, visited);
        visited := visited + [current];
        var e := cb(current);
        if e.Some? {
          err := e;
          return;
        }
        var more := it.Next();
        if !more {
          WalkDone(all, cb, visited);
          return;
        }
      }
    }

    /** AddHTMLAlternativeToPlainText: a text/plain root becomes the first
        child of a new multipart/alternative root, followed by a new
        text/html part holding `content`; any other root (or none) is left
        alone and false is returned. */
    method AddHTMLAlternativeToPlainText(content: string) returns (added: bool)
      modifies this
      ensures added <==> MimeTypeOf(old(root)) == "text/plain"
      ensures !added ==> root == old(root)
      ensures added ==> old(root).Some?
      ensures added ==>
        root == Some(Obj.Multipart(Multiparts.MultipartInfo("alternative"), [old(root).value, HtmlPart(content)]))
      ensures added ==> IsGoMultipart(root) && MimeTypeOf(root) == "multipart/alternative"
      ensures headers == old(headers) && addresses == old(addresses)
    {
      if MimeTypeOf(root) != "text/plain" {
        return false;
      }
      var multipart := new Multiparts.MultipartRef.WithSubtype("alternative");
      multipart.AddPart(root.value);
      multipart.AddPart(HtmlPart(content));
      assert multipart.children == [old(root).value, HtmlPart(content)];
      root := Some(multipart.AsObj());
      GoTypeAssertions(root);
      assert MimeTypeOf(root) == "multipart/" + "alternative";
      assert "multipart/" + "alternative" == "multipart/alternative";
      added := true;
    }
  }

  /** No address lists yet. */
  function EmptyLists(): (m: map<AddressField, seq<Mailbox>>)
    ensures forall f :: f in m && m[f] == []
  {
    var m := map[From := [], Sender := [], ReplyTo := [], To := [], Cc := [], Bcc := []];
    assert forall f :: f in m && m[f] == [] by {
      forall f ensures f in m && m[f] == [] {
        assert f.From? || f.Sender? || f.ReplyTo? || f.To? || f.Cc? || f.Bcc?;
      }
    }
    m
  }

  /** Two spellings of X-Header are both removed by one RemoveAllHeaders; a
      second call finds nothing, and the To header is untouched. */
  method RemoveAllExample() returns (first: bool, gone: string, second: bool, to: string)
    ensures first && gone == "" && !second && to == "Kien Pham <kien@sendgrid.com>"
  {
    var hs := [Header("X-HEADER", "1"), Header("To", "Kien Pham <kien@sendgrid.com>"), Header("X-Header", "2")];
    var e := new Envelope(hs, EmptyLists(), None);
    var parse: string -> Option<seq<Mailbox>> := _ => None;
    assert NameEq(hs[0].name, "X-HEADER");
    first := e.RemoveAllHeaders("X-HEADER", parse);
    gone := e.Header("X-HEADER");
    second := e.RemoveAllHeaders("X-HEADER", parse);
    assert Lower("To")[0] != Lower("X-HEADER")[0];
    WithoutNameMeaning(hs, "X-HEADER", "To");
    to := e.Header("To");
    assert Find(hs, "To") == Some("Kien Pham <kien@sendgrid.com>");
  }

  /** Adding a mailbox to an address list: the header of that list then
      shows the new address. */
  method AddAddressExample(e: Envelope, header: string, name: string, address: string) returns (shown: string)
    requires e.Valid() && AddressFieldOf(header).Some?
    modifies e
    ensures Contains(shown, address)
  {
    var err := e.AddAddress(header, name, address);
    FindFirst(e.headers, header);
    shown := e.Header(header);
  }

  /** Removing a message's only To header and parsing a new list into To:
      the To header then reads as exactly the parsed list. */
  method ReplaceToExample(e: Envelope, list: string, parse: string -> Option<seq<Mailbox>>) returns (to: string)
    requires e.Valid() && parse(list).Some?
    requires HasName(e.headers, "to") && !HasName(RemoveFirst(e.headers, "to"), "to")
    modifies e
    ensures to == FormatList(parse(list).value)
  {
    assert AddressFieldOf("to") == Some(To);
    var removed := e.RemoveHeader("to", parse);
    assert e.addresses[To] == [];
    var err := e.ParseAndAppendAddresses("to", list, parse);
    assert [] + parse(list).value == parse(list).value;
    FindFirst(e.headers, "to");
    to := e.Header("to");
  }

  /** Removing a message's only From header and appending a list of
      mailboxes to From: the From header then reads as exactly that list,
      and as "" when the list is empty. */
  method ReplaceFromExample(e: Envelope, addrs: seq<Mailbox>) returns (from: string)
    requires e.Valid()
    requires HasName(e.headers, "from") && !HasName(RemoveFirst(e.headers, "from"), "from")
    modifies e
    ensures from == FormatList(addrs)
  {
    assert AddressFieldOf("from") == Some(From);
    var removed := e.RemoveHeader("from", _ => None);
    assert e.addresses[From] == [];
    var err := e.AppendAddressList("from", addrs);
    assert [] + addrs == addrs;
    FindFirst(e.headers, "from");
    from := e.Header("from");
  }

  /** Address headers cannot be set as plain headers, whatever their letter
      case; other headers can. */
  method SetHeaderAddressExample() returns (fromErr: Option<string>, ccErr: Option<string>, otherErr: Option<string>)
    ensures fromErr == Some("use AddAddress for From")
    ensures ccErr == Some("use AddAddress for CC")
    ensures otherErr.None?
  {
    var e := new Envelope([], EmptyLists(), None);
    assert Lower("From") == "from";
    fromErr := e.SetHeader("From", "someone@somewhere.com");
    assert "use AddAddress for " + "From" == "use AddAddress for From";
    assert Lower("CC") == "cc";
    ccErr := e.SetHeader("CC", "someone@somewhere.com");
    assert "use AddAddress for " + "CC" == "use AddAddress for CC";
    assert Lower("X-Test")[0] == 'x';
    otherErr := e.SetHeader("X-Test", "1");
  }

  /** A text/plain root gets an HTML alternative and the message becomes
      multipart/alternative; a second call finds no text/plain root and
      does nothing. */
  method AlternativeExample() returns (first: bool, contentType: string, second: bool)
    ensures first && contentType == "multipart/alternative" && !second
  {
    var plain := NewPartWithType("text", "plain");
    var e := new Envelope([], EmptyLists(), Some(plain));
    assert "text" + "/" + "plain" == "text/plain";
    first := e.AddHTMLAlternativeToPlainText("<p>hi</p>");
    contentType := e.ContentType();
    assert "multipart" + "/" + "alternative" == "multipart/alternative";
    second := e.AddHTMLAlternativeToPlainText("<p>hi</p>");
  }
}
