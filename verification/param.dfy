/** Parameter lists of content types and content dispositions: a linked list
    of name=value nodes, and the Go walk over it. */
module Params {
  import opened Util

  /** A parameter list: each node holds a name and a value and links to the
      next node; NoParam is the null link. */
  datatype ParamList = NoParam | Param(name: string, value: string, next: ParamList)

  /** The number of nodes in the list. */
  function Length(p: ParamList): nat {
    match p
    case NoParam => 0
    case Param(_, _, rest) => 1 + Length(rest)
  }

  /** The list from its k-th node on (k links followed). */
  function Skip(p: ParamList, k: nat): (r: ParamList)
    requires k <= Length(p)
    ensures Length(r) == Length(p) - k
    decreases k
  {
    if k == 0 then p else Skip(p.next, k - 1)
  }

  /** The value of the first parameter whose name matches `n` ignoring ASCII
      case, or None (a NULL) when there is none. */
  function ParameterOf(p: ParamList, n: string): Option<string> {
    match p
    case NoParam => None
    case Param(name, value, rest) => if NameEq(name, n) then Some(value) else ParameterOf(rest, n)
  }

  /** A lookup finds a value only at a node with the name, and that node's
      value is the value found. */
  lemma {:induction false} ParameterOfFound(p: ParamList, n: string)
    requires ParameterOf(p, n).Some?
    ensures exists k :: 0 <= k < Length(p) && NameEq(Skip(p, k).name, n) && Skip(p, k).value == ParameterOf(p, n).value
  {
    if NameEq(p.name, n) {
      assert Skip(p, 0) == p;
    } else {
      ParameterOfFound(p.next, n);
      var k :| 0 <= k < Length(p.next) && NameEq(Skip(p.next, k).name, n) && Skip(p.next, k).value == ParameterOf(p.next, n).value;
      assert Skip(p, k + 1) == Skip(p.next, k);
    }
  }

  /** A lookup misses only when no node has the name. */
  lemma {:induction false} ParameterOfMissing(p: ParamList, n: string, k: nat)
    requires ParameterOf(p, n).None?
    requires k < Length(p)
    ensures !NameEq(Skip(p, k).name, n)
    decreases k
  {
    if k > 0 {
      ParameterOfMissing(p.next, n, k - 1);
    }
  }

  /** The same lookup as a Go string: a missing parameter reads as "". */
  function Parameter(p: ParamList, n: string): string {
    ParameterOf(p, n).GetOr("")
  }

  /** Following one more link from the k-th node reaches the (k+1)-th. */
  lemma {:induction false} SkipStep(p: ParamList, k: nat)
    requires k < Length(p)
    ensures Skip(p, k).Param?
    ensures Skip(p, k + 1) == Skip(p, k).next
    decreases k
  {
    if k > 0 {
      SkipStep(p.next, k - 1);
    }
  }

  /** forEachParam: the callback is invoked once per node of the list, in link
      order, with that node's name and value. The callback returns nothing, so
      its effect is the sequence of (name, value) arguments it received. */
  method ForEachParam(params: ParamList) returns (calls: seq<(string, string)>)
    ensures |calls| == Length(params)
    ensures forall i :: 0 <= i < |calls| ==>
      Skip(params, i).Param? && calls[i] == (Skip(params, i).name, Skip(params, i).value)
  {
    var p := params;
    calls := [];
    while p != NoParam
      invariant |calls| <= Length(params)
      invariant p == Skip(params, |calls|)
      invariant forall i :: 0 <= i < |calls| ==>
        Skip(params, i).Param? && calls[i] == (Skip(params, i).name, Skip(params, i).value)
      decreases Length(p)
    {
      SkipStep(params, |calls|);
      calls := calls + [(p.name, p.value)];
      p := p.next;
    }
  }
}
