/** Iteration over the parts of a message: the library's native pre-order
    part iterator, and the Go PartIter that puts a multipart root in front of
    it. */
module PartIters {
  import opened Util
  import opened Objects
  import opened Messages

  /** An object followed by all its descendants, depth first, children in
      order. Below a message part comes the MIME part of its embedded message
      with that part's own descendants; when that MIME part is a multipart,
      the multipart itself is skipped and its children follow directly, as
      for a multipart root. */
  function PreOrder(o: Obj): (r: seq<Obj>)
    ensures |r| >= 1 && r[0] == o
    decreases o, 1
  {
    match o
    case Multipart(_, cs) => [o] + Flatten(cs)
    case MessagePart(_, e) =>
      if e.None? then [o]
      else if e.value.Multipart? then [o] + Flatten(e.value.children)
      else [o] + PreOrder(e.value)
    case _ => [o]
  }

  /** The pre-orders of a sequence of siblings, one after the other. */
  function Flatten(cs: seq<Obj>): seq<Obj>
    decreases cs, 0
  {
    if cs == [] then [] else PreOrder(cs[0]) + Flatten(cs[1..])
  }

  /** The objects the native iterator visits, in order, for a message with
      root `root`: when the root is a multipart, its descendants in pre-order
      (the root itself is not visited); otherwise the root and, for a message
      part, the parts of its embedded message; nothing when there is no
      root. */
  function NativeOrder(root: Option<Obj>): (r: seq<Obj>)
    ensures root.Some? && root.value.Multipart? ==> r == PreOrder(root.value)[1..]
    ensures root.Some? && !root.value.Multipart? ==> r == PreOrder(root.value)
  {
    match root
    case None => []
    case Some(o) => if o.Multipart? then Flatten(o.children) else PreOrder(o)
  }

  /** Each object as a non-null pointer. */
  function Somes(s: seq<Obj>): (r: seq<Option<Obj>>)
    ensures |r| == |s| && forall i :: 0 <= i < |s| ==> r[i] == Some(s[i])
  {
    seq(|s|, i requires 0 <= i < |s| => Some(s[i]))
  }

  /** What the native iterator's current pointer shows from position `pos`
      until its next step fails: the objects still ahead, or a single NULL
      when there was nothing to visit at all. */
  function NativeRest(order: seq<Obj>, pos: nat): seq<Option<Obj>>
    requires pos <= |order|
  {
    if |order| == 0 then [None] else Somes(order[pos..])
  }

  /** From the start, the native iterator shows the object at position `p`
      of the order at step `p`, or one NULL when the order is empty. */
  lemma NativeRestAt(order: seq<Obj>, p: nat)
    requires p < |NativeRest(order, 0)|
    ensures |order| > 0 ==> |NativeRest(order, 0)| == |order|
    ensures |order| == 0 ==> |NativeRest(order, 0)| == 1
    ensures NativeRest(order, 0)[p] == if p < |order| then Some(order[p]) else None
  {
  }

  /** The library's part iterator: the visiting order is fixed when it is
      created, and a position moves through it. */
  class NativePartIter {
    const order: seq<Obj>
    var pos: nat

    predicate Valid()
      reads this
    {
      pos <= |order|
    }

    /** A new iterator over the parts of a message with root `root`. */
    constructor (root: Option<Obj>)
      ensures Valid() && order == NativeOrder(root) && pos == 0
    {
      order := NativeOrder(root);
      pos := 0;
    }

    /** The current object, NULL once the iterator has run off the end or
        when there was nothing to visit. */
    function Current(): (r: Option<Obj>)
      requires Valid()
      reads this
      ensures r.Some? <==> pos < |order|
      ensures r.Some? ==> r.value == order[pos]
    {
      if pos < |order| then Some(order[pos]) else None
    }

    /** Steps to the next object; false when there is none. */
    method Next() returns (more: bool)
      requires Valid()
      modifies this
      ensures Valid()
      ensures pos == if old(pos) < |order| then old(pos) + 1 else old(pos)
      ensures more <==> pos < |order|
    {
      if pos < |order| {
        pos := pos + 1;
      }
      more := pos < |order|;
    }
  }

  /** What a loop `for it := NewPartIter(m); it.HasNext(); it.Next()` sees
      through Current() for a message with root `root`: a multipart root
      first (as the container), then the native iterator's objects, or a
      single nil when the native iterator has nothing. */
  function Yields(root: Option<Obj>): seq<Option<Obj>> {
    (if IsGoMultipart(root) then [root] else []) + NativeRest(NativeOrder(root), 0)
  }

  /** The Go iterator: a native iterator, the hasNext flag, and the multipart
      container that is shown once before the native iterator is consulted. */
  class PartIter {
    const native: NativePartIter
    var hasNext: bool
    var container: Option<Obj>

    /** The container is only pending before the first step; the native
        iterator is past its end only when it had nothing to visit. */
    predicate Valid()
      reads this, native
    {
      && native.Valid()
      && (container.Some? ==> hasNext && native.pos == 0)
      && (hasNext && native.pos == |native.order| ==> |native.order| == 0)
      && (!hasNext ==> native.pos == |native.order| && container.None?)
    }

    /** What Current() will show, step by step, from now until HasNext()
        turns false. */
    function Rest(): seq<Option<Obj>>
      requires Valid()
      reads this, native
    {
      if !hasNext then []
      else (if container.Some? then [container] else []) + NativeRest(native.order, native.pos)
    }

    /** NewPartIter: a native iterator over the message, and the root as the
        container when it is a multipart. */
    constructor (message: Message)
      ensures fresh(native)
      ensures Valid()
      ensures native.order == NativeOrder(message.mimePart) && native.pos == 0
      ensures hasNext
      ensures container == if IsGoMultipart(message.mimePart) then message.mimePart else None
      ensures Rest() == Yields(message.mimePart)
    {
      native := new NativePartIter(message.mimePart);
      hasNext := true;
      container := if IsGoMultipart(message.mimePart) then message.mimePart else None;
    }

    /** Current: the pending container, otherwise the native iterator's
        current object, nil when that is NULL. */
    function Current(): (r: Option<Obj>)
      requires Valid()
      reads this, native
      ensures hasNext ==> r == Rest()[0]
    {
      if container.Some? then container else native.Current()
    }

    function HasNext(): (r: bool)
      requires Valid()
      reads this, native
      ensures r <==> Rest() != []
    {
      hasNext
    }

    /** next: drops the pending container (and reports true), otherwise
        steps the native iterator. */
    method StepNext() returns (more: bool)
      requires Valid()
      modifies this, native
      ensures native.Valid() && hasNext == old(hasNext) && container.None?
      ensures old(container).Some? ==> more && native.pos == old(native.pos)
      ensures old(container).None? ==>
        native.pos == (if old(native.pos) < |native.order| then old(native.pos) + 1 else old(native.pos))
      ensures old(container).None? ==> (more <==> native.pos < |native.order|)
    {
      if container.Some? {
        container := None;
        more := true;
      } else {
        more := native.Next();
      }
    }

    /** Next: HasNext becomes what next reported; what is still to come
        loses its first item. */
    method Next()
      requires Valid()
      modifies this, native
      ensures Valid()
      ensures Rest() == if old(Rest()) == [] then [] else old(Rest())[1..]
    {
      ghost var before := Rest();
      ghost var p := native.pos;
      ghost var order := native.order;
      var more := StepNext();
      hasNext := more;
      if old(container).Some? {
        assert before == [old(container)] + NativeRest(order, 0);
      } else if old(hasNext) {
        if p < |order| {
          assert before == Somes(order[p..]);
          if native.pos < |order| {
            assert order[p..][1..] == order[native.pos..];
          }
        } else {
          assert before == [None];
        }
      }
    }
  }

  /** Moving the first of the items still to come to the end of those seen
      keeps their concatenation. */
  lemma ConsumeOne<T>(seen: seq<T>, current: T, rest: seq<T>, all: seq<T>)
    requires seen + rest == all && rest != [] && rest[0] == current
    ensures (seen + [current]) + rest[1..] == all
  {
    assert rest == [current] + rest[1..];
  }

  /** Runs a Go part loop to the end and collects what Current() showed at
      each step. */
  method Collect(message: Message) returns (items: seq<Option<Obj>>)
    ensures items == Yields(message.mimePart)
  {
    var it := new PartIter(message);
    ghost var all := Yields(message.mimePart);
    items := [];
    while it.HasNext()
      invariant fresh(it) && fresh(it.native)
      invariant it.Valid()
      invariant items + it.Rest() == all
      decreases |it.Rest()|
    {
      ghost var rest := it.Rest();
      ghost var seen := items;
      var current := it.Current();
      items := items + [current];
      it.Next();
      assert it.Rest() == rest[1..];
      ConsumeOne(seen, current, rest, all);
    }
  }

  /** A new message whose root is set to `root`, walked with a Go part
      loop to the end. */
  method IterateRoot(root: Obj) returns (items: seq<Option<Obj>>)
    requires IsGoPart(Some(root)) || IsGoMultipart(Some(root))
    ensures items == Yields(Some(root))
  {
    var m := new Message();
    m.SetMimePart(Some(root));
    items := Collect(m);
  }

  /** A message whose root is one text/html part: the loop shows that part
      once. */
  method SinglePartExample() returns (types: seq<string>)
    ensures types == ["text/html"]
  {
    var part := NewPartWithType("text", "html");
    GoTypeAssertions(Some(part));
    var items := IterateRoot(part);
    assert items == [Some(part)];
    types := [MimeTypeOf(items[0])];
    assert "text" + "/" + "html" == "text/html";
  }

  /** A multipart root holding two leaves: the loop shows the root, then
      each leaf. */
  lemma TwoLeavesYield(mp: Obj, a: Obj, b: Obj)
    requires mp.Multipart? && mp.children == [a, b]
    requires !a.Multipart? && !a.MessagePart? && !b.Multipart? && !b.MessagePart?
    ensures Yields(Some(mp)) == [Some(mp), Some(a), Some(b)]
  {
    assert Flatten([b]) == [b] by {
      assert [b][1..] == [];
    }
    assert Flatten([a, b]) == [a, b] by {
      assert [a, b][1..] == [b];
    }
  }

  /** A message part whose embedded message has a multipart of two leaves as
      its MIME part: the iterator shows the message part, then the two
      leaves, never the embedded multipart itself. */
  lemma EmbeddedMultipartYield(m: Obj, e: Obj, a: Obj, b: Obj)
    requires m.MessagePart? && m.embedded == Some(e)
    requires e.Multipart? && e.children == [a, b]
    requires !a.Multipart? && !a.MessagePart? && !b.Multipart? && !b.MessagePart?
    ensures Yields(Some(m)) == [Some(m), Some(a), Some(b)]
  {
    assert Flatten([b]) == [b] by {
      assert [b][1..] == [];
    }
    assert Flatten([a, b]) == [a, b] by {
      assert [a, b][1..] == [b];
    }
    assert NativeOrder(Some(m)) == [m, a, b];
  }

  /** A multipart root holding a leaf and a message part whose embedded
      message has a leaf as its MIME part: the loop shows the root, the leaf,
      the message part, and then the embedded message's part. */
  lemma EmbeddedMessageYield(mp: Obj, a: Obj, m: Obj, e: Obj)
    requires mp.Multipart? && mp.children == [a, m]
    requires !a.Multipart? && !a.MessagePart?
    requires m.MessagePart? && m.embedded == Some(e)
    requires !e.Multipart? && !e.MessagePart?
    ensures Yields(Some(mp)) == [Some(mp), Some(a), Some(m), Some(e)]
  {
    assert PreOrder(m) == [m, e];
    assert Flatten([m]) == [m, e] by {
      assert [m][1..] == [];
    }
    assert Flatten([a, m]) == [a, m, e] by {
      assert [a, m][1..] == [m];
    }
  }

  /** A message whose root is a multipart/mixed holding a text/plain and a
      text/html part: the loop shows the multipart, then the two parts. */
  method MultipartExample() returns (types: seq<string>)
    ensures types == ["multipart/mixed", "text/plain", "text/html"]
  {
    var text := NewPartWithType("text", "plain");
    var html := NewPartWithType("text", "html");
    var mp := Obj.Multipart(Info(Some(ContentType("multipart", "mixed", Params.NoParam)), None, []), [text, html]);
    GoTypeAssertions(Some(mp));
    var items := IterateRoot(mp);
    TwoLeavesYield(mp, text, html);
    types := [MimeTypeOf(items[0]), MimeTypeOf(items[1]), MimeTypeOf(items[2])];
    assert "text" + "/" + "plain" == "text/plain";
    assert "text" + "/" + "html" == "text/html";
    assert "multipart" + "/" + "mixed" == "multipart/mixed";
  }
}
