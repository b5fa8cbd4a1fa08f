/** Mailboxes and their textual form in an address list. */
module Addresses {
  import opened Util

  /** A mailbox: a display name (possibly empty) and an address. */
  datatype Mailbox = Mailbox(name: string, address: string)

  /** "name <address>", or the bare address when the name is empty. */
  function Format(m: Mailbox): string {
    if m.name == "" then m.address else m.name + " <" + m.address + ">"
  }

  /** The mailboxes of a list formatted in order and separated by ", ". */
  function FormatList(ms: seq<Mailbox>): string {
    if ms == [] then "" else Format(ms[0]) + FormatRest(ms[1..])
  }

  /** The mailboxes of a list formatted in order, each preceded by ", ". */
  function FormatRest(ms: seq<Mailbox>): string {
    if ms == [] then "" else ", " + Format(ms[0]) + FormatRest(ms[1..])
  }

  /** Adding a mailbox to a list adds ", " and its formatted form at the
      end of the separated part. */
  lemma {:induction false} FormatRestAppend(ms: seq<Mailbox>, m: Mailbox)
    ensures FormatRest(ms + [m]) == FormatRest(ms) + ", " + Format(m)
  {
    if ms == [] {
      assert [] + [m] == [m];
    } else {
      var t, u := ms[1..], ms + [m];
      assert u[1..] == t + [m];
      assert u[0] == ms[0];
      var x, r, f := ", " + Format(ms[0]), FormatRest(t), Format(m);
      calc {
        FormatRest(u);
        x + FormatRest(t + [m]);
        { FormatRestAppend(t, m); }
        x + ((r + ", ") + f);
        { AppendAssoc(x, r + ", ", f); }
        (x + (r + ", ")) + f;
        { AppendAssoc(x, r, ", "); }
        ((x + r) + ", ") + f;
        FormatRest(ms) + ", " + f;
      }
    }
  }

  /** Adding a mailbox to a non-empty list adds ", " and its formatted form
      at the end. */
  lemma FormatListAppend(ms: seq<Mailbox>, m: Mailbox)
    requires ms != []
    ensures FormatList(ms + [m]) == FormatList(ms) + ", " + Format(m)
  {
    var u := ms + [m];
    assert u[1..] == ms[1..] + [m];
    assert u[0] == ms[0];
    FormatRestAppend(ms[1..], m);
    var h, r, f := Format(ms[0]), FormatRest(ms[1..]), Format(m);
    assert FormatList(u) == h + (r + ", " + f);
    assert FormatList(ms) == h + r;
    AppendAssoc(h, r + ", ", f);
    AppendAssoc(h, r, ", ");
  }

  /** A formatted mailbox shows its address, whatever text precedes it. */
  lemma FormatShowsAddress(prefix: string, m: Mailbox)
    ensures Contains(prefix + Format(m), m.address)
  {
    var s := prefix + Format(m);
    var i := if m.name == "" then |prefix| else |prefix| + |m.name| + 2;
    assert s[i..i + |m.address|] == m.address;
  }

  /** A list shows the address of the mailbox added last, whatever came
      before it. */
  lemma FormatListShowsLast(ms: seq<Mailbox>, m: Mailbox)
    ensures Contains(FormatList(ms + [m]), m.address)
  {
    if ms == [] {
      assert ms + [m] == [m];
      assert FormatList([m]) == "" + Format(m) + "";
      assert "" + Format(m) + "" == "" + Format(m);
      FormatShowsAddress("", m);
    } else {
      FormatListAppend(ms, m);
      FormatShowsAddress(FormatList(ms) + ", ", m);
    }
  }

  /** A two-mailbox list is the two formatted mailboxes joined by ", ". */
  lemma FormatPair(a: Mailbox, b: Mailbox)
    ensures FormatList([a] + [b]) == Format(a) + ", " + Format(b)
  {
    assert ([a] + [b])[1..] == [b];
    assert [b][1..] == [];
    assert FormatRest([b]) == ", " + Format(b) + "";
    assert ", " + Format(b) + "" == ", " + Format(b);
  }
}
