# go-gmime orchestration model

A Dafny model of the Go layer of go-gmime. go-gmime wraps the C GMime mail
library. The Go code does not parse, encode or serialise mail itself; it
decides which C operation to call, on which object, in which order, and what
to do with the answer. This model keeps that Go logic and gives the C state
as plain values:

- **Header lists.** The header list of a message or MIME object is a
  `seq<Header>` of (name, value) entries in insertion order. Names are looked
  up without regard to ASCII letter case. "Set" replaces the first entry of
  that name and drops later ones, or appends; "get" finds the first entry;
  "remove" drops the first entry (`HeaderLists`).
- **Address lists.** An address list is a `seq<Mailbox>`. It is shown as
  "name <address>" entries joined by ", " (`Addresses`).
- **The MIME tree.** The tree is the `Obj` datatype (`Objects`):
  - a leaf part (`Part`);
  - a message partial, which is a subclass of part (`Partial`);
  - a multipart with ordered children (`Multipart`);
  - an embedded message part, holding the MIME part of its message
    (`MessagePart`);
  - a message;
  - a plain object.
- **The C part iterator.** The library's part iterator visits the
  descendants of a multipart root in pre-order, without the root. Below a
  message part it goes on into the MIME part of the embedded message and
  that part's descendants. When that MIME part is a multipart, the
  multipart itself is skipped, as a multipart root is, and its children
  follow directly. Any other root is visited first, followed, for a message
  part, by its embedded parts. An empty message shows one NULL
  (`PartIters.NativePartIter`).
- **Address headers.** When an address list changes, the library writes
  the whole list back as its header under the canonical name ("From",
  "Sender", "Reply-To", "To", "Cc", "Bcc"). That header is set, not
  appended. When an address header is removed, the library rebuilds that
  list by parsing the headers of that name that are left. The address
  parser is a parameter (`parse`).

The operations are modelled file by file, in the form the Go code has:

- **Classes.** Handles whose methods update state are classes with
  `modifies` clauses: `Envelope`, `Message`, `MultipartRef`, `ObjectRef`,
  `Composer`, `PartIter` and `Parse`.
- **Loops.** The Go loops are loops with invariants:
  - `RemoveAllHeaders` and the `Headers` multimap;
  - the part walks and the parameter-list walk;
  - the composer's `part` rendering;
  - the `Attachment` and `parseBody` iterator loops.
- **Functions.** Pure dispatch is a function: the address-header switch,
  `objectAsSubclass`, `parsePart` and the disposition checks.
- **Specifications.** Each loop is proved against a specification function,
  and lemmas state what that function means:
  - `WalkAll` for the "callback returns an error to abort" walks;
  - `ValuesNamed` for `Headers`;
  - `BodyText` and `Collected` for the parse facade;
  - `PartText` for the composer, with `Drained` for the state a rendering
    leaves behind.

## Model

| member | source | states |
|---|---|---|
| Walks.WalkAllMeaning | gmime/envelope.go:252-270 | A walk visits a prefix of the items in order. A nil result means every item was visited and every callback returned nil. An error is what the last visited item's callback returned, and every earlier callback returned nil. |
| Walks.WalkAllStopsAt | gmime/multipart.go:74-81 | When the first error comes from item k, the walk visits exactly items 0..k and returns that error; later items are never visited. |
| Walks.WalkAllSkip | gmime/object.go:157-175 | After a callback returns nil, the rest of the walk is the walk of the remaining items, with that item counted as visited. |
| Walks.WalkStart | gmime/envelope.go:252-257 | Before the loop nothing has been visited, and the whole walk is still ahead. |
| Walks.WalkStep | gmime/envelope.go:254-266 | One iteration of the Envelope walk loop: an error at the current part ends the walk with the parts seen so far plus this one; nil carries the walk on to the next part. |
| Walks.WalkDone | gmime/envelope.go:263-269 | Once the iterator's next reports false after nil callbacks, the walk has visited everything and returns nil. |
| HeaderLists.FindFirst | gmime/object.go:100-105 | A lookup finds a value iff some entry has the name in any letter case, and the value is that of the first such entry. |
| HeaderLists.SetThenFind | gmime/object.go:91-98 | After a header is set, looking it up under any letter-case variant of its name yields the new value. |
| HeaderLists.SetKeepsOthers | gmime/object.go:91-98 | Setting one header leaves the lookup of every differently named header unchanged. |
| HeaderLists.SetAppendsNew | gmime/object.go:91-98 | Setting a header that no entry has yet appends it at the end and keeps the others in order. |
| HeaderLists.RenderAppend | gmime/object.go:121-126 | The header block of a list with one more entry is the old block followed by that entry's "Name: value" line. |
| HeaderLists.RenderLines | gmime/object.go:121-126 | A header block is empty iff there are no headers; otherwise it starts with the first header's line and ends with a newline. |
| HeaderLists.SetTwice | gmime/envelope.go:171-178 | Setting a header twice leaves the same list as setting it once to the second value, so writing an address list back after each mailbox ends with the whole list. |
| HeaderLists.WithoutNameMeaning | gmime/envelope.go:217-229 | After all entries named n are removed, none named n remains and lookups of other names are unchanged. The list gets shorter iff an entry named n existed, and stays the same otherwise. |
| HeaderLists.RemoveFirstMeaning | gmime/envelope.go:209-214 | Removing the first entry named n shortens the list by one iff such an entry exists, changes nothing otherwise, and never changes what is left once every n is gone (the RemoveAllHeaders loop variant). |
| HeaderLists.GroupStep | gmime/envelope.go:59-68 | One iteration of the Headers loop: after an entry is added, the map keys are exactly the names spelled so far, each mapped to the values of the entries so spelled, in order. |
| HeaderLists.ValuesNamedStep | gmime/envelope.go:59-68 | One more entry adds its value at the end of the values under its exact spelling and changes no other name. |
| HeaderLists.HasExactNameStep | gmime/envelope.go:59-68 | One more entry adds exactly its own spelling to the names present. |
| HeaderLists.ValuesNamedPresent | gmime/envelope.go:63-66 | A name gets a non-empty value list iff some entry is spelled exactly that way. |
| Params.ParameterOfFound | gmime/content_type.go:83-88 | A parameter lookup that finds a value found it at a node with that name in any letter case, and the value is that node's value. |
| Params.ParameterOfMissing | gmime/content_type.go:83-88 | A lookup that finds nothing means that no node of the list has the name. |
| Params.ForEachParam | gmime/param.go:18-27 | The callback is called once per node, in link order, with that node's name and value; the number of calls is the list length, so a nil list gives no calls. |
| Params.Skip | gmime/param.go:18-27 | Following k next links from a list leaves a list shorter by exactly k. |
| Params.SkipStep | gmime/param.go:25 | Following one more next link from node k reaches node k+1. |
| ContentDispositions.ContentDisposition.Disposition | gmime/content_disposition.go:42-49 | The disposition token, or "" when the handle does not hold a content-disposition. |
| ContentDispositions.ContentDisposition.IsAttachment | gmime/content_disposition.go:51-58 | True iff the handle holds a disposition whose token is non-empty. |
| ContentDispositions.FromString | gmime/content_disposition.go:32-40 | A single-token string reads back as that token, with no parameters, and is an attachment iff it is non-empty. |
| ContentDispositions.AttachmentExamples | gmime/content_disposition_test.go:12-57 | "" is not an attachment; "attachment", "inline" and "bogus" are; "hola!" reads back as itself. |
| Objects.Flags | gmime/object.go:139-155 | NULL passes none of the C type checks; a partial passes both the partial and the part check. |
| Objects.ObjectAsSubclass | gmime/object.go:139-155 | The chosen kind's check succeeds and the check of every kind earlier in the order (message part, partial, multipart, part, message, object) fails. |
| Objects.KindOfVariant | gmime/object.go:139-155 | Every C class gets its own wrapper. A partial gets the partial wrapper, not the part wrapper, because it is checked first. NULL gets a plain object. |
| Objects.GoTypeAssertions | gmime/object.go:139-155 | The Go assertion to Part succeeds exactly on a leaf part or a partial, the assertion to Multipart exactly on a C multipart, and neither on NULL. |
| Objects.NewPartWithType | gmime/part.go:43-52 | A new part of type t/s has that type, no content, no disposition, and its Content-Type as its only header. |
| Objects.ObjectRef.ContentType | gmime/object.go:84-89 | Exactly the object's own content type: nil when the object has none, otherwise the same type, subtype and parameter list. |
| Objects.Filename | gmime/part.go:86-88 | A part's filename is its disposition's "filename" parameter whenever that parameter is present, even when its value is "". Only when it is absent does the content type's "name" parameter count. With neither, the filename is "". |
| Objects.EmptyFilenameWins | gmime/part.go:86-88 | A part with "filename" set to "" and "name" set to "x" has the filename "". Without the "filename" parameter, the same part's filename is "x". |
| Objects.ObjectRef.ContentDisposition | gmime/object.go:113-119 | nil exactly when the object has no disposition; otherwise a handle on that disposition. |
| Objects.ObjectRef.SetHeader | gmime/object.go:91-98 | The object's header list becomes the list with the header set; nothing else changes. |
| Objects.ObjectRef.Header | gmime/object.go:100-105 | Found iff some header has the name in any case; the value is that of the first such header; "" and false otherwise. |
| Objects.ObjectRef.Headers | gmime/object.go:121-126 | The object's header block: empty iff it has no headers, otherwise starting with its first header's "Name: value" line and ending with a newline. |
| Objects.ObjectRef.WalkHeaders | gmime/object.go:157-175 | The callback sees the headers in order and the walk stops at, and returns, the first error. An empty list calls nothing and returns nil. |
| Objects.ExampleNamesNew | gmime/object_test.go:32-41 | The three test headers are each new when set, so each is appended; the header set first is found, and one never set is not. |
| Objects.ExampleBlock | gmime/object_test.go:43-47 | The test object's header block is its four "Name: value" lines in the order set. |
| Objects.HeaderExample | gmime/object_test.go:32-47 | The header set is found as ("hola!", true), a header never set gives ("", false), and the block lists Content-Type first and the rest in order. |
| Multiparts.MultipartInfo | gmime/multipart.go:43-49 | A new multipart of subtype s has type multipart/s and no boundary yet. |
| Multiparts.MultipartRef.constructor | gmime/multipart.go:37-41 | NewMultipart: an empty multipart/mixed. |
| Multiparts.MultipartRef.WithSubtype | gmime/multipart.go:43-49 | NewMultipartWithSubtype: an empty multipart of the given subtype. |
| Multiparts.MultipartRef.AddPart | gmime/multipart.go:51-54 | The part is appended at the end of the children. |
| Multiparts.MultipartRef.GetPart | gmime/multipart.go:56-59 | The child at the index; out of range gives NULL, wrapped as a plain object that is neither a Part nor a Multipart. |
| Multiparts.MultipartRef.Count | gmime/multipart.go:65-67 | The number of children: exactly the indices GetPart answers for. |
| Multiparts.MultipartRef.Boundary | gmime/multipart.go:69-71 | The "boundary" parameter of the multipart's content type, "" without a content type or before a boundary is set; the children play no part in it. |
| Multiparts.MultipartRef.Clear | gmime/multipart.go:61-63 | No children remain. |
| Multiparts.MultipartRef.Walk | gmime/multipart.go:74-81 | The callback sees the direct children in index order (no recursion), and the walk stops at, and returns, the first error. |
| Multiparts.MultipartRef.AsObj | gmime/multipart.go:37-49 | The handle's object is a C multipart holding exactly the handle's children. |
| Multiparts.AddThenGetExample | gmime/multipart_test.go:27-36 | A part added to a new multipart is read back at index 0 as a Go Part, and the count is 1. |
| Addresses.FormatRestAppend | gmime/envelope.go:171-178 | The ", "-prefixed tail of a list with one more mailbox is the old tail followed by ", " and that mailbox's text. |
| Addresses.FormatShowsAddress | gmime/gmime_test.go:285-289 | A mailbox's text contains its address, whatever text comes before it. |
| Addresses.FormatListShowsLast | gmime/gmime_test.go:285-289 | Whatever the list held before, the text of the list with a mailbox added at the end contains that mailbox's address. |
| Addresses.FormatListAppend | gmime/message_test.go:74-90 | Adding a mailbox to a non-empty list adds ", " and that mailbox's text at the end. |
| Addresses.FormatPair | gmime/message_test.go:74-90 | A two-mailbox list is shown as the two mailboxes joined by ", ". |
| Messages.SetRecipientHeader | gmime/message.go:113-119 | Setting a recipient list's header changes what is found under that header name, and under no other recipient header, Subject or Message-Id. |
| Messages.SetFieldHeader | gmime/message.go:79-94 | Setting Subject or Message-Id changes what is found under that name only. |
| Messages.DistinctFieldNames | gmime/message.go:113-141 | To, Cc, Bcc, Subject and Message-Id differ in any letter case, so setting one never touches another. |
| Messages.SetSubjectShows | gmime/message.go:79-83 | Setting the Subject header keeps the header list in step with the new subject and the unchanged recipient lists and id. |
| Messages.SetMessageIdShows | gmime/message.go:90-94 | Setting the Message-Id header to the id in angle brackets keeps the header list in step with the new id. |
| Messages.AddRecipientShows | gmime/message.go:113-119 | Appending a mailbox to one list and re-setting that list's header keeps the header list in step with all three lists. |
| Messages.Message.constructor | gmime/message.go:51-55 | A new message has no headers, no recipients, no subject, no id and no root part. |
| Messages.Message.SetSubject | gmime/message.go:79-83 | The subject is replaced and the Subject header is set to it; the lists, id and root stay. |
| Messages.Message.Subject | gmime/message.go:85-88 | The subject and true once one was set, "" and false before. |
| Messages.Message.SetMessageId | gmime/message.go:90-94 | The id is replaced and Message-Id is set to it in angle brackets; everything else stays. |
| Messages.Message.MessageId | gmime/message.go:96-99 | The id and true once one was set, "" and false before. |
| Messages.Message.AddRecipient | gmime/message.go:113-119 | Exactly one (name, address) mailbox is appended to the chosen list, the other two are unchanged, and that list's header is re-set to the whole list. |
| Messages.Message.AddTo | gmime/message.go:121-123 | One mailbox is appended to To, Cc and Bcc are unchanged, and the To header shows the list. |
| Messages.Message.AddCc | gmime/message.go:130-132 | One mailbox is appended to Cc, To and Bcc are unchanged, and the Cc header shows the list. |
| Messages.Message.AddBcc | gmime/message.go:139-141 | One mailbox is appended to Bcc, To and Cc are unchanged, and the Bcc header shows the list. |
| Messages.Message.AllRecipients | gmime/message.go:148-153 | Length |To|+|Cc|+|Bcc|: the To mailboxes, then Cc, then Bcc, each list in its own order. |
| Messages.Message.SetMimePart | gmime/message.go:155-163 | The root is replaced only by a Go Part or Multipart; any other object leaves it as it was; nothing else changes. |
| Messages.Message.Headers | gmime/compose_test.go:107-127 | The message's own header lines come first. Without a root nothing follows. With a root, a "MIME-Version: 1.0" line follows unless the message has that header already, then the root's header lines; this is the header block the composer test expects, since the C code that writes it is not part of this model. |
| Messages.Message.Header | gmime/object.go:100-105 | Found iff some message header has the name in any case, with the first such value; "" and false otherwise. |
| Messages.SubjectExample | gmime/message_test.go:44-57 | A second subject replaces the first: ("hola 2", true). |
| Messages.MessageIdExample | gmime/message_test.go:59-72 | A second id replaces the first: ("hola 2", true). |
| Messages.ToExample | gmime/message_test.go:74-90 | Two To mailboxes are shown in call order as "hola <kickass@example.com>, hola2 <kickass2@example.com>". |
| Messages.AllRecipientsExample | gmime/message_test.go:128-149 | One mailbox per list gives [TO, CC, BCC] in that order. |
| Messages.MimePartExample | gmime/message.go:155-163 | A part root reads back as a Part and a multipart root as a Multipart. A C NULL, which the Go side wraps as a plain object, falls through the type switch and leaves the root as it was. (A nil Go interface would instead panic at the call on line 156; that case is not modelled.) |
| PartIters.PartIter.constructor | gmime/part_iter.go:29-39 | Right after creation HasNext is true, and the container is the root iff the root is a Multipart. What the loop will see is the container (if any) followed by the native iterator's objects. |
| PartIters.NativeOrder | gmime/part_iter.go:29-39 | The native iterator visits a multipart root's descendants in pre-order without the root. Any other root comes first, followed by the embedded message's parts when it is a message part. The pre-order goes on below every message part into its embedded message's MIME part, skipping that part when it is a multipart and going straight to its children. |
| PartIters.NativeRestAt | gmime/part_iter.go:41-51 | From the start, step p of the native iterator shows the p-th object it visits, or one NULL when it has nothing to visit. |
| PartIters.PartIter.Current | gmime/part_iter.go:41-51 | While the container is pending it is what Current shows; otherwise the native current object, nil when that is NULL. Either way, the first of what the loop still has to see. |
| PartIters.PartIter.HasNext | gmime/part_iter.go:53-55 | True iff the loop still has something to see. |
| PartIters.PartIter.StepNext | gmime/part_iter.go:57-63 | With a pending container, next only clears it and reports true, without advancing the native iterator; otherwise it advances the native iterator and reports whether a current object remains. |
| PartIters.PartIter.Next | gmime/part_iter.go:65-67 | HasNext becomes next's answer; what the loop still has to see loses exactly its first item. |
| PartIters.Collect | gmime/part_iter.go:29-67 | A full `for it := NewPartIter(m); it.HasNext(); it.Next()` loop sees exactly the multipart root, if any, then the native iterator's objects. |
| PartIters.SinglePartExample | gmime/part_iter_test.go:14-27 | A message with one text/html root yields exactly that part. |
| PartIters.IterateRoot | gmime/part_iter.go:29-67 | A Go part loop over a message whose root was set to a part or multipart sees exactly the objects Yields predicts. |
| PartIters.TwoLeavesYield | gmime/part_iter_test.go:29-46 | A multipart holding two leaves (neither a multipart nor a message part) is seen as the multipart, then each leaf. |
| PartIters.EmbeddedMultipartYield | gmime/part_iter.go:29-67 | A message part whose embedded message's MIME part is a multipart of two leaves is seen as the message part, then the two leaves; the embedded multipart itself is never shown. |
| PartIters.EmbeddedMessageYield | gmime/part_iter.go:29-67 | A multipart holding a leaf and a message part is seen as the multipart, the leaf and the message part. The embedded message's MIME part follows them. |
| PartIters.MultipartExample | gmime/part_iter_test.go:29-46 | A multipart/mixed root holding text/plain and text/html yields the container, then the two parts. |
| Envelopes.AddressFieldOf | gmime/envelope.go:99-114 | The lower-cased header name picks the address list it names among from, sender, reply-to, to, cc and bcc; any other name picks none. |
| Envelopes.AddressHeader | gmime/envelope.go:99-114 | The name a list's header is written under is, lower-cased, the name that selects that list. |
| Envelopes.AddressHeaderMatches | gmime/envelope.go:99-114 | Every name an address operation accepts designates, in any letter case, the header its list is written under. |
| Envelopes.ReparsedNone | gmime/envelope.go:209-214 | With no header of a name left, the list rebuilt from the headers of that name is empty. |
| Util.Lower | gmime/envelope.go:74 | Lowering keeps the length and maps each ASCII capital to its small letter, leaving every other character as it is. |
| Envelopes.HtmlPart | gmime/envelope.go:316-319 | The new HTML alternative is a text/html leaf holding the content. |
| Envelopes.Envelope.constructor | gmime/envelope.go:24-36 | An envelope holds the headers, the six address lists and the root part it is given. |
| Envelopes.Envelope.Subject | gmime/envelope.go:39-42 | The first Subject header's value, "" when there is none. |
| Envelopes.Envelope.SetSubject | gmime/envelope.go:45-51 | The Subject header is set; the lists and root stay. |
| Envelopes.Envelope.SetHeader | gmime/envelope.go:73-89 | An address header name, in any letter case, is refused with "use AddAddress for <name>" and changes nothing. Any other header is set and nil is returned. |
| Envelopes.Envelope.ListAdd | gmime/envelope.go:116-117 | The library's list add: the mailbox goes at the end of its list, and the list's header is set to the whole new list. Nothing else changes. |
| Envelopes.Envelope.AddAddress | gmime/envelope.go:92-119 | An unknown header gives "can't add to header <name>", and neither the lists nor the headers change. A known one appends exactly one (name, address) mailbox to its own list only. The list's header is set to the whole list, so looking the header up by the given name gives the list's text, and that text contains the address. |
| Envelopes.Envelope.ParseAndAppendAddresses | gmime/envelope.go:122-150 | An unknown header is an error and changes nothing. Text the parser cannot read appends nothing, leaves the headers alone and returns nil. Otherwise the parsed mailboxes are appended, in order, to that header's list only, and the header, looked up by the given name, reads as the whole list. |
| Envelopes.Envelope.AddEach | gmime/envelope.go:171-178 | The loop adds the mailboxes to the list in input order. With at least one mailbox, the list's header ends up set to the whole list. With none, the headers stay. |
| Envelopes.Envelope.AppendAddressList | gmime/envelope.go:153-180 | An unknown header is an error and changes nothing. Otherwise the mailboxes are appended one by one, in input order, to that list only. An empty input leaves the list and the headers unchanged. Any other input leaves the header, looked up by the given name, reading as the whole list. |
| Envelopes.Envelope.ClearAddress | gmime/envelope.go:185-206 | An unknown header gives "unknown header <name>" and changes nothing. Otherwise exactly that list is emptied, and its header is set to "", so it is still there with an empty value. |
| Envelopes.Envelope.RemoveHeader | gmime/envelope.go:209-214 | True iff a header of that name existed; the first such entry is removed. Removing an address header rebuilds its list from the headers of that name that are left, as the parser reads them. With none left, the list is empty. Any other removal leaves the lists alone. |
| Envelopes.Envelope.RemoveAllHeaders | gmime/envelope.go:217-229 | The result is true iff at least one header of that name existed. Afterwards none remains (so a second call returns false), and the other headers stay in order. An address list whose headers were all removed is empty; otherwise the lists stay. |
| Envelopes.Envelope.Header | gmime/envelope.go:233-238 | The first value under the name in any case, "" when there is none. |
| Envelopes.Envelope.Headers | gmime/envelope.go:54-70 | Every exactly spelled name is a key and nothing else is. Each key maps to the values of all entries so spelled, in list order, and never to an empty list. |
| Envelopes.EmptyLists | gmime/envelope.go:24-36 | The six address lists start out empty. |
| Envelopes.Envelope.ContentType | gmime/envelope.go:241-249 | The root's "type/subtype": "" without a root part, "" for a root without a content type, and otherwise that content type's "type/subtype". |
| Envelopes.Envelope.Walk | gmime/envelope.go:252-270 | The callback sees what the native iterator shows, starting with its current object (one NULL for an empty message). The walk stops at, and returns, the first error, and returns nil once next reports false. |
| Envelopes.Envelope.AddHTMLAlternativeToPlainText | gmime/envelope.go:299-322 | True iff the root's type is exactly "text/plain". In that case the root becomes a multipart/alternative with children [old root, new text/html part holding the content]. Otherwise nothing changes. |
| Envelopes.RemoveAllExample | gmime/gmime_test.go:174-188 | Both spellings of X-Header are removed by one call, the header reads back "", a second call returns false, and To is untouched. |
| Envelopes.AddAddressExample | gmime/gmime_test.go:279-290 | After AddAddress on a known header, that header's value contains the added address. |
| Envelopes.ReplaceToExample | gmime/gmime_test.go:368-377 | After the only To header is removed and a list is parsed into To, the To header reads as exactly the parsed list. |
| Envelopes.ReplaceFromExample | gmime/gmime_test.go:562-573 | After the only From header is removed and mailboxes are appended to From, the From header reads as exactly those mailboxes, and as "" when there are none. |
| Envelopes.SetHeaderAddressExample | gmime/gmime_test.go:334-352 | "From" and "CC" are refused with their own names in the error; another header is accepted. |
| Envelopes.AlternativeExample | gmime/gmime_test.go:146-172 | A text/plain root is rewritten and reads back as multipart/alternative; a second call returns false. |
| Composers.DataPart | gmime/compose.go:165-171 | addPart's part has the requested type, holds the data with the given encoding in a stream positioned at its start, and has its Content-Type as its only header. |
| Composers.Composer.constructor | gmime/compose.go:45-49 | NewCompose: a fresh message, an empty multipart/mixed and a part count of 0. |
| Composers.Composer.AddTo | gmime/compose.go:51-53 | One mailbox is appended to the message's To list and the To header is set to the whole list; Cc, Bcc and the root stay. |
| Composers.Composer.AddCC | gmime/compose.go:55-57 | One mailbox is appended to the message's Cc list and the Cc header is set to the whole list; To, Bcc and the root stay. |
| Composers.Composer.AddBCC | gmime/compose.go:59-61 | One mailbox is appended to the message's Bcc list and the Bcc header is set to the whole list; To, Cc and the root stay. |
| Composers.Composer.AddSubject | gmime/compose.go:63-65 | The subject becomes the given one and the Subject header is set to it; the recipient lists and the root stay. |
| Composers.Composer.AddPart | gmime/compose.go:165-182 | One part is appended to the multipart and the count goes up by exactly one. The root becomes that part when it is the first part, and the multipart holding all parts in call order from the second on. |
| Composers.Composer.AddText | gmime/compose.go:67-70 | Appends one text/plain part and counts it; the message headers, subject and recipient lists stay. |
| Composers.Composer.AddHTML | gmime/compose.go:77-80 | Appends one text/html part and counts it; the message headers, subject and recipient lists stay. |
| Composers.ReadersChangeNothing | gmime/compose.go:72-84 | The reader variants leave the parts, the root and the headers as they were, and Text() and HTML() still give "". |
| Composers.Composer.Text | gmime/compose.go:102-105 | Always "". |
| Composers.Composer.HTML | gmime/compose.go:107-110 | Equal to Text(), hence "". |
| Composers.Composer.Subject | gmime/compose.go:98-100 | The message subject, "" before one is set. |
| Composers.Composer.To | gmime/compose.go:94-96 | The To list as text, the same as the list's formatting: "" when empty, the one mailbox's text when there is one. |
| Composers.Composer.Recipient | gmime/compose.go:116-120 | All recipients, To then Cc then Bcc, as one list of text. |
| Composers.Composer.RenderPart | gmime/compose.go:132-163 | The payload is PartText: a multipart is its children's renderings in index order, a message part "". A part is the rest of its stream and "\n\n", after its own headers only when more than one part was added. An empty stream or a missing content object panics (None). On success the object comes back drained: every leaf stream at its end. |
| Composers.Composer.RenderChildren | gmime/compose.go:136-142 | The Multipart branch's loop: the children's renderings appended in index order, which panics iff one child's does. On success each child comes back drained, in order. |
| Composers.Composer.RenderLeaf | gmime/compose.go:148-159 | The Part branch: panics iff the part has no content object or an empty stream; otherwise the optional headers, the rest of the stream and a blank line, with the stream left at its end. |
| Composers.Composer.ToString | gmime/compose.go:122-130 | The message header block, "\n", then the rendering of the root ("" without one); None when rendering panics. On success every part's stream is left at its end, so the state is that of Drained parts; on a panic the parts stay. Headers, subject and recipients never change. |
| Composers.ReadRest | gmime/stream.go:46-55 | Read(Length()): panics (None) iff the stream is empty; otherwise what is left from the read position, which is all the data at position 0 and nothing at the end. |
| Composers.AtEnd | gmime/compose.go:150-153 | After a read of the whole length the stream keeps its data and encoding, and a further read gives nothing (still a panic when empty). |
| Composers.ChildrenTextPanics | gmime/compose.go:137-142 | Rendering children panics iff rendering one of them does. |
| Composers.ComposerPanics | gmime/stream.go:46-48 | ToString panics iff some added part holds no data. |
| Composers.DrainedText | gmime/compose.go:148-159 | Rendering an object again after it rendered once gives its husk: the header lines and blank lines, without any data. |
| Composers.DrainedChildrenText | gmime/compose.go:137-142 | The same for a sequence of children: a second rendering is their husks in order. |
| Composers.ChildrenTextAppend | gmime/compose.go:137-142 | Rendering one more child appends that child's rendering; a panic in either is a panic. |
| Composers.ChildrenTextSplit | gmime/compose.go:137-142 | Rendering children is rendering a prefix of them, then the rest. |
| Composers.BodyShape | gmime/compose.go:148-160 | The body is "" before the first part. With one part it is that part's leaf rendering without headers, i.e. its data and a blank line while its stream is unread. From two parts on, it is every part with its own headers, in the order added. |
| Composers.DataPartText | gmime/compose.go:148-160 | A built part with data, rendered with headers, is "Content-Type: t/s\n", its data, then "\n\n"; once drained it is the same without the data. |
| Composers.TypedPartText | gmime/compose.go:148-160 | A built part of type "t/s" with data, rendered with headers, is its Content-Type line with that type, its data, then a blank line; once drained, the line and the blank line. |
| Composers.RecipientLines | gmime/compose_test.go:92-128 | The test's To, Cc, Bcc and Subject headers render as four lines in that order. |
| Composers.ExampleBody | gmime/compose_test.go:108-128 | The four test parts render with their headers and data, one after the other, in the order added. |
| Composers.ExampleFrame | gmime/compose.go:122-130 | With the test's headers (no MIME-Version of their own) and four parts rendering as body, the text is: the header lines, a MIME-Version line, the multipart's header line, a blank line, then body. |
| Composers.ExampleLacksMimeVersion | gmime/compose_test.go:92-128 | The test's headers carry no MIME-Version of their own. |
| Composers.BuildExample | gmime/compose_test.go:92-107 | Three recipients, a subject and four alternating parts give the headers To, Cc, Bcc, Subject and a multipart of the four parts in order. |
| Composers.ComposeExample | gmime/compose_test.go:92-128 | The composed text of the mixed test message, line for line, except the From line (the sender is outside the model). |
| Composers.SecondRenderExample | gmime/compose.go:150-153 | Rendering the test message twice: the first text is the expected one, the second has every part's header line and blank line but none of the parts' data. |
| Composers.EmptyPartPanics | gmime/stream.go:46-48 | A composer whose only part is empty text panics when rendered. |
| Composers.ExampleHusks | gmime/compose_test.go:114-126 | The four test parts, once drained, render as their Content-Type lines and blank lines. |
| Parsing.ParsePart | gmime/parse.go:144-158 | A part matches iff its "type/subtype" equals the request and its filename is empty. A part that does not match gives ("", false). |
| Parsing.ParsePartPayload | gmime/parse.go:145-154 | A match's payload is rawPart's result when the lower-cased charset is "utf-8", and otherwise that result converted from the charset to utf-8. |
| Parsing.RawPart | gmime/parse.go:133-141 | The part's content as the memory stream's Bytes() returns it: the whole content when it is longer than one byte, "" otherwise (one byte is never returned); "" for an object that is not a part. |
| Parsing.BodyOf | gmime/parse.go:161-181 | A Part root is parsed alone. For any other root, ok iff the body is non-empty, and a root that is neither a Part nor a Multipart gives ("", false). |
| Parsing.BodyTextEmpty | gmime/parse.go:168-180 | A multipart body is empty (not ok) iff no item the loop shows contributes anything. |
| Parsing.ContainerContributesNothing | gmime/parse.go:94-105 | The multipart container the loop shows first contributes nothing to a body and is not an attachment. |
| Parsing.BodyTextStep | gmime/parse.go:168-177 | One more loop item appends its payload contribution to the body. |
| Parsing.CollectedStep | gmime/parse.go:94-105 | One more loop item adds its filename and content to the map when it is an attachment, overwriting an earlier entry with that name, and changes nothing otherwise. |
| Parsing.AttachmentsOf | gmime/parse.go:83-107 | A Part root gives at most one entry, keyed by its filename, present iff its disposition marks an attachment. A Multipart root gives the loop's attachments. Any other root gives an empty map. |
| Parsing.AttachmentKeys | gmime/parse.go:94-105 | The keys are exactly the filenames of the attachment parts the loop shows. |
| Parsing.AttachmentLastWins | gmime/parse.go:94-105 | Under a filename no later attachment part shares, the value is that part's raw content, so a later same-named part overwrites an earlier one. |
| Parsing.CollectedKeys | gmime/parse.go:94-105 | Inserting entries one by one gives exactly the keys of the entries. |
| Parsing.CollectedLastWins | gmime/parse.go:94-105 | Inserting entries one by one leaves, under each key, the value of the last entry with that key. |
| Parsing.Parse.constructor | gmime/parse.go:32-41 | A facade on the given message. |
| Parsing.Parse.ParseBody | gmime/parse.go:161-181 | The body and flag BodyOf specifies for the message's root. |
| Parsing.Parse.PartsPayload | gmime/parse.go:168-177 | The iterator loop concatenates, in loop order, the payloads of the matching non-nil Go Parts. |
| Parsing.Parse.ItemPayload | gmime/parse.go:169-175 | One turn of the loop adds exactly the item's contribution: the payload of a non-nil Go Part that matches, nothing otherwise. |
| Parsing.Parse.Text | gmime/parse.go:75-77 | The body of type "text/plain". |
| Parsing.Parse.Html | gmime/parse.go:79-81 | The body of type "text/html". |
| Parsing.Parse.Attachment | gmime/parse.go:83-107 | The map AttachmentsOf specifies for the message's root. |
| Parsing.Parse.Boundary | gmime/parse.go:122-130 | The root's boundary parameter when the root is a Multipart, "" otherwise. |
| Parsing.TextOnlyExample | gmime/parse_test.go:36-59 | A text/plain root: the text is its content, Html gives ("", false), and there are no attachments. |
| Parsing.MixedYields | gmime/part_iter.go:29-67 | The loop over the mixed example sees the multipart, then the text part, then the PDF part. |
| Parsing.MixedText | gmime/parse.go:161-181 | The text body of the mixed example is the converted latin-1 text alone; the container and the PDF add nothing. |
| Parsing.MixedAttachments | gmime/parse.go:83-107 | The attachments of the mixed example are exactly "a.pdf" mapped to its content. |
| Parsing.MultipartExample | gmime/parse.go:75-107 | A multipart/mixed of a latin-1 text part and a PDF attachment: the text is the converted text part, and the only attachment is "a.pdf". |
| Parsing.OneByteTextExample | gmime/stream_mem.go:50-62 | A utf-8 text/plain root holding one byte: Text finds the part (ok is true) but its text is "". |
| Parsing.OneByteAttachment | gmime/stream_mem.go:50-62 | A one-byte attachment root is filed under its name with empty content. |

## Left out

- The C library itself is not part of this model. That covers the MIME
  parser, the transfer-encoding codecs, the address grammar and
  serialiser, header folding, RFC 2047 encoding and boundary generation.
  Its header-list, address-list and tree operations are given as abstract
  operations on values with the behaviour the Go code relies on.
- `Parse` (gmime/envelope.go:24-36) and `NewParse` (gmime/parse.go:32-41)
  read and parse a stream. Both constructors take the parsed state instead.
- `Export`, `Close`, `ToString`/`WriteToStream` of objects, and every
  stream, file and reference-counting helper are left out. They are I/O
  and memory management done by C.
- The library's address serialiser (quoting, RFC 2047 encoding, folding)
  is modelled as `FormatList`. The rebuilding of an address list when one
  of its headers is removed follows the library's header-removal handler.
  That handler's C code, and the address parser it calls (the `parse`
  parameter), are not part of this model.
- `rawPart` writes a part's content through its data wrapper. The
  transfer decoding that this may involve is C, so `RawPart` starts from
  the stored content (then drops it when it is one byte or less, as
  `Bytes()` does).
- Charset conversion (iconv) is a foreign library, modelled as a
  `Converter` parameter. Its error result is ignored by the code, and so
  it is not modelled.
- Letter case is folded for ASCII only. `strings.ToLower` also folds
  non-ASCII letters, which can never match the ASCII names the code
  compares against ("from", ..., "bcc", "utf-8").
- `parsePart` calls `ContentType().ToString()` and `Parameter` on a part
  without a content type; the Go code would fail there. The model reads
  such a part's type and charset as "".
- Sender, ReplyTo, Date, `AddFrom`, `From` and `Message()` of the composer
  and message are left out: their C behaviour (a second `SetSender` keeps
  the first) is not visible in the Go code. The composed example
  therefore has no From line.
- `aCompose.Subject` (gmime/compose.go:98-100) returns the two results of
  `Message.Subject` from a one-result function, which does not compile as
  written. The model returns the subject string.
- The delegating accessors of the parse facade (To, Cc, Bcc, Recipients,
  Subject, From, MessageId, ContentType, Headers, Header) only forward to
  the message and are not repeated.
- `part` prints a debug line for a message part; output is not modelled.
- Envelopes.Envelope.AddHTMLAlternativeToPlainText: the charset and
  encoding headers that GMime's text-part constructor adds to the new HTML
  part are not modelled; the part is a plain text/html leaf.
- Envelopes.Envelope.Headers: the total number of values equal to the
  number of headers is not stated as a sum. It follows from each name
  mapping to exactly the values of the entries so spelled.
- Handles are modelled with value semantics for the MIME tree. A part
  added to a multipart is a copy, so later changes through another handle
  to the same C object are not seen.
- Composers.Composer.ToString: after a panic the model keeps the state as
  it was; the parts rendered before the panicking one have in fact had
  their streams moved to the end. The panic itself is the None result.
- Composers.Composer.RenderPart: only the memory streams the composer
  creates are modelled; the stream's flush and any C-side buffering are
  not.

Behaviours of the Go code worth noting:

- `IsAttachment` is true for any non-empty disposition token. This
  includes "inline", and the filename is not considered.
- `ClearAddress` refuses only names that are not address headers.
- The composer renders parts without boundary lines.
- The composer reads each part's stream without rewinding it, so a second
  `ToString` renders every part without its data, and a part with no data
  panics (`SecondRenderExample`, `EmptyPartPanics`).
- `rawPart` returns nothing for content of a single byte, because the
  memory stream's `Bytes()` copies only when it holds more than one byte
  (`OneByteTextExample`, `OneByteAttachment`).
