/** The ordered, duplicate-permitting header list that every MIME object and
    message carries. Its operations belong to the C library; they are given
    here as abstract operations on a sequence of (name, value) entries, with
    name lookups case-insensitive (ASCII) and entries kept in insertion order. */
module HeaderLists {
  import opened Util

  datatype Header = Header(name: string, value: string)

  /** Some entry is named `n`, in any letter case. */
  predicate HasName(hs: seq<Header>, n: string) {
    exists i :: 0 <= i < |hs| && NameEq(hs[i].name, n)
  }

  /** The value of the first entry named `n` (the C "get header"). */
  function Find(hs: seq<Header>, n: string): Option<string> {
    if hs == [] then None
    else if NameEq(hs[0].name, n) then Some(hs[0].value)
    else Find(hs[1..], n)
  }

  /** Removes the first entry named `n` (the C "remove header"). */
  function RemoveFirst(hs: seq<Header>, n: string): seq<Header> {
    if hs == [] then []
    else if NameEq(hs[0].name, n) then hs[1..]
    else [hs[0]] + RemoveFirst(hs[1..], n)
  }

  /** The entries not named `n`, in their original order. */
  function WithoutName(hs: seq<Header>, n: string): seq<Header> {
    if hs == [] then []
    else if NameEq(hs[0].name, n) then WithoutName(hs[1..], n)
    else [hs[0]] + WithoutName(hs[1..], n)
  }

  /** Sets header `n` (the C "set header"): the first entry named `n` keeps its
      place and its spelling and takes the new value, later entries with that
      name are dropped; when there is none, the header is appended. */
  function Set(hs: seq<Header>, n: string, v: string): seq<Header> {
    if hs == [] then [Header(n, v)]
    else if NameEq(hs[0].name, n) then [Header(hs[0].name, v)] + WithoutName(hs[1..], n)
    else [hs[0]] + Set(hs[1..], n, v)
  }

  /** Setting a header twice is setting it once to the second value. */
  lemma {:induction false} SetTwice(hs: seq<Header>, n: string, v: string, w: string)
    ensures Set(Set(hs, n, v), n, w) == Set(hs, n, w)
  {
    if hs == [] {
    } else if NameEq(hs[0].name, n) {
      WithoutNameMeaning(hs[1..], n, n);
      WithoutNameMeaning(WithoutName(hs[1..], n), n, n);
      var s := Set(hs, n, v);
      assert s[1..] == WithoutName(hs[1..], n);
    } else {
      SetTwice(hs[1..], n, v, w);
      var s := Set(hs, n, v);
      assert s[1..] == Set(hs[1..], n, v);
    }
  }

  /** One header as a "Name: value" line. */
  function Line(h: Header): string {
    h.name + ": " + h.value + "\n"
  }

  /** The header block as text: one line per entry, in order. */
  function Render(hs: seq<Header>): string {
    if hs == [] then "" else Line(hs[0]) + Render(hs[1..])
  }

  /** The values of the entries whose name is exactly `n`, in list order. */
  function ValuesNamed(hs: seq<Header>, n: string): seq<string> {
    if hs == [] then []
    else ValuesNamed(hs[..|hs| - 1], n) + (if hs[|hs| - 1].name == n then [hs[|hs| - 1].value] else [])
  }

  /** Some entry's name is exactly `n`. */
  predicate HasExactName(hs: seq<Header>, n: string) {
    exists i :: 0 <= i < |hs| && hs[i].name == n
  }

  /** A lookup finds a value exactly when some entry has the name, and the
      value it finds is that of the first such entry. */
  lemma {:induction false} FindFirst(hs: seq<Header>, n: string)
    ensures Find(hs, n).Some? <==> HasName(hs, n)
    ensures Find(hs, n).Some? ==>
      exists i :: 0 <= i < |hs| && NameEq(hs[i].name, n) && Find(hs, n).value == hs[i].value &&
        forall j :: 0 <= j < i ==> !NameEq(hs[j].name, n)
  {
    if hs != [] {
      FindFirst(hs[1..], n);
      if !NameEq(hs[0].name, n) {
        if HasName(hs, n) {
          var i :| 0 <= i < |hs| && NameEq(hs[i].name, n);
          assert hs[1..][i - 1] == hs[i];
        }
        if Find(hs, n).Some? {
          var i :| 0 <= i < |hs[1..]| && NameEq(hs[1..][i].name, n) && Find(hs[1..], n).value == hs[1..][i].value &&
            forall j :: 0 <= j < i ==> !NameEq(hs[1..][j].name, n);
          assert hs[i + 1] == hs[1..][i];
          forall j | 0 <= j < i + 1 ensures !NameEq(hs[j].name, n) {
            if j > 0 { assert hs[j] == hs[1..][j - 1]; }
          }
        }
      }
    }
  }

  /** After a header is set, looking it up (in any letter case) yields the
      new value. */
  lemma {:induction false} SetThenFind(hs: seq<Header>, n: string, m: string, v: string)
    requires NameEq(m, n)
    ensures Find(Set(hs, n, v), m) == Some(v)
  {
    if hs != [] && !NameEq(hs[0].name, n) {
      SetThenFind(hs[1..], n, m, v);
    }
  }

  /** The entries left without `n` contain none named `n`, and lookups of
      every other name are unaffected. */
  lemma {:induction false} WithoutNameMeaning(hs: seq<Header>, n: string, m: string)
    ensures !HasName(WithoutName(hs, n), n)
    ensures !NameEq(m, n) ==> Find(WithoutName(hs, n), m) == Find(hs, m)
    ensures |WithoutName(hs, n)| <= |hs|
    ensures |WithoutName(hs, n)| == |hs| <==> !HasName(hs, n)
    ensures !HasName(hs, n) ==> WithoutName(hs, n) == hs
  {
    if hs != [] {
      WithoutNameMeaning(hs[1..], n, m);
      var w := WithoutName(hs, n);
      var w1 := WithoutName(hs[1..], n);
      if NameEq(hs[0].name, n) {
        assert w == w1;
        assert HasName(hs, n) by { assert NameEq(hs[0].name, n); }
      } else {
        assert w == [hs[0]] + w1;
        forall i | 0 <= i < |w| ensures !NameEq(w[i].name, n) {
          if i > 0 { assert w[i] == w1[i - 1]; }
        }
        if HasName(hs, n) {
          var i :| 0 <= i < |hs| && NameEq(hs[i].name, n);
          assert hs[1..][i - 1] == hs[i];
        }
        if HasName(hs[1..], n) {
          var i :| 0 <= i < |hs[1..]| && NameEq(hs[1..][i].name, n);
          assert hs[i + 1] == hs[1..][i];
        }
      }
    }
  }

  /** Removing the first entry named `n` shortens the list by one exactly
      when such an entry exists, and never changes what is left once every
      entry named `n` is gone. */
  lemma {:induction false} RemoveFirstMeaning(hs: seq<Header>, n: string)
    ensures HasName(hs, n) ==> |RemoveFirst(hs, n)| == |hs| - 1
    ensures !HasName(hs, n) ==> RemoveFirst(hs, n) == hs
    ensures WithoutName(RemoveFirst(hs, n), n) == WithoutName(hs, n)
  {
    if hs != [] {
      RemoveFirstMeaning(hs[1..], n);
      if !NameEq(hs[0].name, n) {
        assert WithoutName([hs[0]] + RemoveFirst(hs[1..], n), n) ==
          [hs[0]] + WithoutName(RemoveFirst(hs[1..], n), n) by {
          assert ([hs[0]] + RemoveFirst(hs[1..], n))[1..] == RemoveFirst(hs[1..], n);
        }
        if HasName(hs, n) {
          var i :| 0 <= i < |hs| && NameEq(hs[i].name, n);
          assert hs[1..][i - 1] == hs[i];
        }
        if HasName(hs[1..], n) {
          var i :| 0 <= i < |hs[1..]| && NameEq(hs[1..][i].name, n);
          assert hs[i + 1] == hs[1..][i];
        }
      } else {
        WithoutNameMeaning(hs[1..], n, n);
      }
    }
  }

  /** Setting a header no entry has yet appends it at the end. */
  lemma {:induction false} SetAppendsNew(hs: seq<Header>, n: string, v: string)
    requires !HasName(hs, n)
    ensures Set(hs, n, v) == hs + [Header(n, v)]
  {
    if hs != [] {
      assert !NameEq(hs[0].name, n);
      assert !HasName(hs[1..], n) by {
        forall i | 0 <= i < |hs[1..]| ensures !NameEq(hs[1..][i].name, n) {
          assert hs[1..][i] == hs[i + 1];
        }
      }
      SetAppendsNew(hs[1..], n, v);
      assert hs == [hs[0]] + hs[1..];
    }
  }

  /** Four header entries render as their four lines. */
  lemma {:induction false} RenderFour(a: Header, b: Header, c: Header, d: Header)
    ensures Render([a, b, c, d]) == Line(a) + Line(b) + Line(c) + Line(d)
  {
    assert [d][1..] == [];
    assert Render([d]) == Line(d);
    assert [c, d][1..] == [d];
    assert Render([c, d]) == Line(c) + Line(d);
    assert [b, c, d][1..] == [c, d];
    assert Render([b, c, d]) == Line(b) + Line(c) + Line(d);
    assert [a, b, c, d][1..] == [b, c, d];
  }

  /** A header block is empty exactly when there are no headers; otherwise
      it starts with the first header's line and ends with a newline. */
  lemma {:induction false} RenderLines(hs: seq<Header>)
    ensures Render(hs) == "" <==> hs == []
    ensures hs != [] ==> Line(hs[0]) <= Render(hs)
    ensures hs != [] ==> Render(hs)[|Render(hs)| - 1] == '\n'
  {
    if hs != [] {
      var first := Line(hs[0]);
      assert first[|first| - 1] == '\n';
      if hs[1..] != [] {
        RenderLines(hs[1..]);
      }
    }
  }

  /** The header block of a list with one more entry ends with that entry's
      line. */
  lemma {:induction false} RenderAppend(hs: seq<Header>, h: Header)
    ensures Render(hs + [h]) == Render(hs) + Line(h)
  {
    if hs != [] {
      assert (hs + [h])[1..] == hs[1..] + [h];
      RenderAppend(hs[1..], h);
    } else {
      assert Render([h][1..]) == "";
    }
  }

  /** Setting one header leaves the lookup of every other name unchanged. */
  lemma {:induction false} SetKeepsOthers(hs: seq<Header>, n: string, m: string, v: string)
    requires !NameEq(m, n)
    ensures Find(Set(hs, n, v), m) == Find(hs, m)
  {
    if hs == [] {
      assert Set(hs, n, v) == [Header(n, v)];
    } else if NameEq(hs[0].name, n) {
      assert !NameEq(hs[0].name, m);
      WithoutNameMeaning(hs[1..], n, m);
      assert ([Header(hs[0].name, v)] + WithoutName(hs[1..], n))[1..] == WithoutName(hs[1..], n);
    } else {
      SetKeepsOthers(hs[1..], n, m, v);
      assert ([hs[0]] + Set(hs[1..], n, v))[1..] == Set(hs[1..], n, v);
    }
  }

  /** Extending a list by one entry adds that entry's value to the values
      of its own exact name and changes no other name's values. */
  lemma {:induction false} ValuesNamedStep(hs: seq<Header>, i: nat)
    requires i < |hs|
    ensures forall n ::
      ValuesNamed(hs[..i + 1], n) == ValuesNamed(hs[..i], n) + (if hs[i].name == n then [hs[i].value] else [])
  {
    assert hs[..i + 1][..i] == hs[..i];
  }

  /** Extending a list by one entry adds exactly that entry's name to the
      names present. */
  lemma {:induction false} HasExactNameStep(hs: seq<Header>, i: nat)
    requires i < |hs|
    ensures forall n :: HasExactName(hs[..i + 1], n) <==> HasExactName(hs[..i], n) || hs[i].name == n
  {
    forall n ensures HasExactName(hs[..i + 1], n) <==> HasExactName(hs[..i], n) || hs[i].name == n {
      if HasExactName(hs[..i + 1], n) && hs[i].name != n {
        var j :| 0 <= j < i + 1 && hs[..i + 1][j].name == n;
        assert hs[..i][j] == hs[j];
      }
      if HasExactName(hs[..i], n) {
        var j :| 0 <= j < i && hs[..i][j].name == n;
        assert hs[..i + 1][j] == hs[j];
      }
      if hs[i].name == n {
        assert hs[..i + 1][i] == hs[i];
      }
    }
  }

  /** One step of grouping a list by exact name: adding entry `i` to the
      grouping of the entries before it gives the grouping of the entries
      up to and including it. */
  lemma {:induction false} GroupStep(hs: seq<Header>, i: nat, r: map<string, seq<string>>, r2: map<string, seq<string>>)
    requires i < |hs|
    requires forall n :: n in r <==> HasExactName(hs[..i], n)
    requires forall n :: n in r ==> r[n] == ValuesNamed(hs[..i], n)
    requires r2 == r[hs[i].name := (if hs[i].name in r then r[hs[i].name] else []) + [hs[i].value]]
    ensures forall n :: n in r2 <==> HasExactName(hs[..i + 1], n)
    ensures forall n :: n in r2 ==> r2[n] == ValuesNamed(hs[..i + 1], n)
  {
    ValuesNamedStep(hs, i);
    HasExactNameStep(hs, i);
    if hs[i].name !in r {
      ValuesNamedPresent(hs[..i], hs[i].name);
    }
  }

  /** A name has values exactly when some entry is spelled that way. */
  lemma {:induction false} ValuesNamedPresent(hs: seq<Header>, n: string)
    ensures ValuesNamed(hs, n) != [] <==> HasExactName(hs, n)
  {
    if hs != [] {
      var k := |hs| - 1;
      ValuesNamedPresent(hs[..k], n);
      HasExactNameStep(hs, k);
      assert hs[..k + 1] == hs;
    }
  }
}
