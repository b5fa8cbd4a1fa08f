/** The Go Multipart handle: a container object whose children are kept in
    order. */
module Multiparts {
  import opened Util
  import opened Params
  import opened HeaderLists
  import opened Walks
  import opened Objects

  /** The object fields of a new multipart of subtype `s`: content type
      multipart/s, recorded as its only header; no boundary yet. */
  function MultipartInfo(s: string): (i: Info)
    ensures MimeTypeOf(Some(Obj.Multipart(i, []))) == "multipart/" + s
    ensures Boundary(Obj.Multipart(i, [])) == ""
  {
    Info(Some(ContentType("multipart", s, NoParam)), None, [Header("Content-Type", "multipart/" + s)])
  }

  class MultipartRef {
    var info: Info
    var children: seq<Obj>

    /** The C object this handle points at. */
    function AsObj(): (o: Obj)
      reads this
      ensures o.Multipart? && o.children == children
    {
      Obj.Multipart(info, children)
    }

    /** NewMultipart: an empty multipart/mixed. */
    constructor ()
      ensures info == MultipartInfo("mixed") && children == []
    {
      info := MultipartInfo("mixed");
      children := [];
    }

    /** NewMultipartWithSubtype: an empty multipart of the given subtype. */
    constructor WithSubtype(s: string)
      ensures info == MultipartInfo(s) && children == []
    {
      info := MultipartInfo(s);
      children := [];
    }

    /** AddPart: appends a child at the end. */
    method AddPart(part: Obj)
      modifies this
      ensures children == old(children) + [part]
      ensures info == old(info)
    {
      children := children + [part];
    }

    /** GetPart: the child at `index`; an index out of range yields NULL, which
        the Go side wraps as a plain object, neither a Part nor a Multipart. */
    function GetPart(index: int): (r: Option<Obj>)
      reads this
      ensures r.Some? <==> 0 <= index < |children|
      ensures r.Some? ==> r.value == children[index]
      ensures r.None? ==> KindOf(r) == ObjectKind && !IsGoPart(r) && !IsGoMultipart(r)
    {
      KindOfVariant(None);
      if 0 <= index < |children| then Some(children[index]) else None
    }

    /** Count: the number of children. */
    function Count(): (n: nat)
      reads this
      ensures n == |children|
      ensures forall i :: 0 <= i < n <==> GetPart(i).Some?
    {
      |children|
    }

    /** Clear: removes every child. */
    method Clear()
      modifies this
      ensures children == [] && info == old(info)
    {
      children := [];
    }

    /** The boundary parameter of the content type, "" until one is set;
        the children play no part in it. */
    function Boundary(): (r: string)
      reads this
      ensures info.contentType.None? ==> r == ""
      ensures info.contentType.Some? ==> r == Parameter(info.contentType.value.params, "boundary")
      ensures r == Objects.Boundary(Obj.Multipart(info, []))
    {
      Objects.Boundary(AsObj())
    }

    /** Walk: calls `cb` on each child in order and stops at, and returns,
        the first error. */
    method Walk<E>(cb: Obj -> Option<E>) returns (visited: seq<Obj>, err: Option<E>)
      ensures Walked(visited, err) == WalkAll(children, cb)
    {
      visited := [];
      err := None;
      var i := 0;
      while i < Count()
        invariant 0 <= i <= |children|
        invariant visited == children[..i]
        invariant forall j :: 0 <= j < i ==> cb(children[j]).None?
      {
        var part := GetPart(i).value;
        visited := visited + [part];
        var e := cb(part);
        if e.Some? {
          err := e;
          WalkAllStopsAt(children, cb, i);
          return;
        }
        i := i + 1;
      }
      WalkAllSkip(children, cb, |children|);
      assert children[..|children|] == children;
    }
  }

  /** A part added to a new multipart is read back at index 0 as a Go Part,
      and the multipart counts one child. */
  method AddThenGetExample() returns (isPart: bool, count: nat)
    ensures isPart && count == 1
  {
    var m := new MultipartRef();
    m.AddPart(NewPartWithType("text", "plain"));
    var got := m.GetPart(0);
    GoTypeAssertions(got);
    isPart := IsGoPart(got);
    count := m.Count();
  }
}
