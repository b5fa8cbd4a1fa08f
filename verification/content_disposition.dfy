/** The Go wrapper around a Content-Disposition value. */
module ContentDispositions {
  import opened Util
  import opened Params

  /** A parsed Content-Disposition: its disposition token and parameters. */
  datatype RawDisposition = RawDisposition(disposition: string, params: ParamList)

  /** A Go handle on a C pointer; `raw` is None when the pointer does not
      point at a content-disposition object. */
  datatype ContentDisposition = ContentDisposition(raw: Option<RawDisposition>) {

    /** The disposition token, or "" when the handle does not hold a
        content-disposition. */
    function Disposition(): (r: string)
      ensures raw.None? ==> r == ""
      ensures raw.Some? ==> r == raw.value.disposition
    {
      if raw.Some? then raw.value.disposition else ""
    }

    /** Any non-empty disposition counts as an attachment, whatever its token
        ("attachment", "inline" or anything else). */
    predicate IsAttachment()
      ensures IsAttachment() <==> raw.Some? && raw.value.disposition != ""
    {
      Disposition() != ""
    }

    /** Value of parameter `n`, "" when absent. */
    function Parameter(n: string): string {
      if raw.Some? then Params.Parameter(raw.value.params, n) else ""
    }
  }

  /** A disposition string that is a single token: no parameter separator, no
      white space and no quoting, so the parsed disposition is the string
      itself. */
  predicate IsSimpleToken(s: string) {
    forall i :: 0 <= i < |s| ==> s[i] !in {';', ' ', '\t', '\r', '\n', '"'}
  }

  /** NewContentDispositionFromString for a single-token string: the handle
      holds a disposition whose token is the string, with no parameters; it
      is an attachment exactly when the string is non-empty. */
  function FromString(s: string): (r: ContentDisposition)
    requires IsSimpleToken(s)
    ensures r.raw.Some? && r.raw.value.params == NoParam
    ensures r.Disposition() == s
    ensures r.IsAttachment() <==> s != ""
  {
    ContentDisposition(Some(RawDisposition(s, NoParam)))
  }

  /** The empty string is not an attachment; "attachment", "inline" and any
      other token, such as "bogus", are. */
  lemma AttachmentExamples()
    ensures !FromString("").IsAttachment()
    ensures FromString("attachment").IsAttachment()
    ensures FromString("inline").IsAttachment()
    ensures FromString("bogus").IsAttachment()
    ensures FromString("hola!").Disposition() == "hola!"
  {
  }
}
