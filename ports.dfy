/**
  * Choosing the input connection to open. The backend reports a list of
  * connections; `std::remove_if` moves the named ones to the front, but its
  * result is discarded, so the list keeps its length, with the unnamed
  * entries swapped behind the named ones. `std::find_if` then looks for the requested
  * port by exact name, and `first()` is the fallback.
  */
module Ports {
  import opened Wrappers

  /** A `drumstick::rt::MIDIConnection`: a display name and an opaque backend identifier. */
  datatype Connection = Connection(name: string, id: int)

  /** The connections with a non-empty name, in their original order. */
  function Named(s: seq<Connection>): (r: seq<Connection>)
    ensures |r| <= |s|
  {
    if s == [] then []
    else
      var last := s[|s| - 1];
      Named(s[..|s| - 1]) + (if last.name != [] then [last] else [])
  }

  /** Filtering distributes over concatenation, so the named entries keep their relative order. */
  lemma {:induction false} NamedAppend(a: seq<Connection>, b: seq<Connection>)
    ensures Named(a + b) == Named(a) + Named(b)
    decreases |b|
  {
    if b == [] {
      assert a + b == a;
    } else {
      var front := b[..|b| - 1];
      assert (a + b)[..|a + b| - 1] == a + front;
      NamedAppend(a, front);
    }
  }

  /** Exactly the named entries survive the filter: every survivor is named and comes from `s`, and every named entry survives. */
  lemma {:induction false} NamedMembers(s: seq<Connection>)
    ensures forall c | c in Named(s) :: c.name != [] && c in s
    ensures forall c | c in s && c.name != [] :: c in Named(s)
    ensures Named(s) == [] <==> forall i | 0 <= i < |s| :: s[i].name == []
  {
    if s != [] {
      var front, last := s[..|s| - 1], s[|s| - 1];
      NamedMembers(front);
      assert s == front + [last];
      assert Named(s) == Named(front) + (if last.name != [] then [last] else []);
      forall c | c in s && c.name != []
        ensures c in Named(s)
      {
        if c != last {
          assert c in front;
        }
      }
    }
    if Named(s) != [] {
      assert Named(s)[0] in Named(s);
    } else {
      forall i | 0 <= i < |s|
        ensures s[i].name == []
      {
        assert s[i] in s;
      }
    }
  }

  /**
    * `std::remove_if` with the predicate "name is empty", on values. The
    * standard library finds the first unnamed entry, then move-assigns each
    * later named entry to the write position and advances it. A
    * `MIDIConnection` is a pair of `QString` and `QVariant`, whose move
    * assignments exchange the two values (for `QVariant`, as in Qt 5), so
    * each move swaps the entry at the write position `k` with the named one
    * read at `i`. Before the first
    * unnamed entry the write position is the read position and a swap
    * changes nothing, so one pass covers both phases. The result is the list
    * after the pass and the returned write position.
    */
  function CompactFrom(s: seq<Connection>, k: nat, i: nat): (r: (seq<Connection>, nat))
    requires k <= i <= |s|
    ensures |r.0| == |s| && k <= r.1 <= |s|
    decreases |s| - i
  {
    if i == |s| then (s, k)
    else if s[i].name != [] then CompactFrom(s[k := s[i]][i := s[k]], k + 1, i + 1)
    else CompactFrom(s, k, i + 1)
  }

  /** The whole pass of `remove_if` over a list. */
  function Compacted(s: seq<Connection>): (seq<Connection>, nat)
  {
    CompactFrom(s, 0, 0)
  }

  /**
    * What the pass achieves: the returned position is the number of named
    * entries, they are in front in their original order, only unnamed
    * entries follow, nothing is lost or duplicated, and with no named entry
    * nothing moves.
    */
  lemma CompactedShape(s: seq<Connection>)
    ensures Compacted(s).1 == |Named(s)|
    ensures Compacted(s).0[..|Named(s)|] == Named(s)
    ensures forall j | |Named(s)| <= j < |s| :: Compacted(s).0[j].name == []
    ensures multiset(Compacted(s).0) == multiset(s)
    ensures Named(s) == [] ==> Compacted(s).0 == s
  {
    assert s[..0] == [];
    CompactFromShape(s, s, 0, 0);
    CompactingDone(s, Compacted(s).0, Compacted(s).1);
  }

  /** The pass run from any reachable state of the compaction of `orig` reaches its final state. */
  lemma {:induction false} CompactFromShape(orig: seq<Connection>, s: seq<Connection>, k: nat, i: nat)
    requires Compacting(orig, s, k, i)
    ensures Compacting(orig, CompactFrom(s, k, i).0, CompactFrom(s, k, i).1, |orig|)
    decreases |s| - i
  {
    if i < |s| {
      var t := if s[i].name != [] then s[k := s[i]][i := s[k]] else s;
      CompactingStep(orig, s, t, k, i);
      CompactFromShape(orig, t, if s[i].name != [] then k + 1 else k, i + 1);
    }
  }

  /**
    * The compaction in place on the backend's list, as `remove_if` performs it
    * (see `CompactFrom`); the returned position is what `main` discards.
    */
  method RemoveEmptyNames(a: array<Connection>) returns (k: nat)
    modifies a
    ensures (a[..], k) == Compacted(old(a[..]))
    ensures k == |Named(old(a[..]))| && a[..k] == Named(old(a[..]))
    ensures forall j | k <= j < a.Length :: a[j].name == []
    ensures multiset(a[..]) == multiset(old(a[..]))
    ensures k == 0 ==> a[..] == old(a[..])
  {
    ghost var orig := a[..];
    k := 0;
    for i := 0 to a.Length
      invariant k <= i
      invariant CompactFrom(a[..], k, i) == Compacted(orig)
    {
      if a[i].name != [] {
        ghost var before := a[..];
        a[k], a[i] := a[i], a[k];
        assert a[..] == before[k := before[i]][i := before[k]];
        k := k + 1;
      }
    }
    CompactedShape(orig);
  }

  /**
    * The state of the compaction after reading the first `i` entries of
    * `orig`, with `k` named ones written so far: they are in front, the
    * unnamed ones read so far follow them, the unread entries are untouched,
    * and nothing was lost or duplicated.
    */
  ghost predicate Compacting(orig: seq<Connection>, cur: seq<Connection>, k: nat, i: nat)
  {
    k <= i <= |orig| == |cur|
    && cur[..k] == Named(orig[..i])
    && (forall j | k <= j < i :: cur[j].name == [])
    && cur[i..] == orig[i..]
    && multiset(cur) == multiset(orig)
    && (k == 0 ==> cur == orig)
  }

  /** Once every entry is read, the compaction has its final shape. */
  lemma CompactingDone(orig: seq<Connection>, cur: seq<Connection>, k: nat)
    requires Compacting(orig, cur, k, |orig|)
    ensures k == |Named(orig)| <= |cur| && cur[..k] == Named(orig)
    ensures forall j | k <= j < |cur| :: cur[j].name == []
    ensures multiset(cur) == multiset(orig) && (k == 0 ==> cur == orig)
  {
    assert orig[..|orig|] == orig;
  }

  /** Reading one more entry: a named one is swapped to the write position, an unnamed one stays where it is. */
  lemma CompactingStep(orig: seq<Connection>, s: seq<Connection>, t: seq<Connection>, k: nat, i: nat)
    requires Compacting(orig, s, k, i) && i < |s|
    requires t == if s[i].name != [] then s[k := s[i]][i := s[k]] else s
    ensures Compacting(orig, t, if s[i].name != [] then k + 1 else k, i + 1)
  {
    assert s[i] == orig[i] by {
      assert s[i..][0] == orig[i..][0];
    }
    assert s[i + 1..] == orig[i + 1..] by {
      assert s[i + 1..] == s[i..][1..];
    }
    assert Named(orig[..i + 1]) == Named(orig[..i]) + (if orig[i].name != [] then [orig[i]] else []) by {
      assert orig[..i + 1][..i] == orig[..i];
    }
    if s[i].name != [] {
      Swapped(s, t, k, i);
    }
  }

  /** Exchanging the entries at `k <= i`: the prefix grows by the entry from `i`, and everything past `i` is as it was. */
  lemma Swapped<T>(s: seq<T>, t: seq<T>, k: nat, i: nat)
    requires k <= i < |s| && t == s[k := s[i]][i := s[k]]
    ensures t[..k + 1] == s[..k] + [s[i]]
    ensures t[i + 1..] == s[i + 1..]
    ensures forall j | k < j < i :: t[j] == s[j]
    ensures k < i ==> t[i] == s[k]
    ensures multiset(t) == multiset(s)
  {
  }

  /** `std::find_if` by exact name: the position of the first entry called `name`, or `|s|` (the end) when there is none. */
  function FindByName(s: seq<Connection>, name: string): (r: nat)
    ensures r <= |s|
    ensures r < |s| ==> s[r].name == name
    ensures forall j | 0 <= j < r :: s[j].name != name
  {
    if s == [] then 0
    else if s[0].name == name then 0
    else 1 + FindByName(s[1..], name)
  }

  /** The warning written to standard error when the requested port is missing. */
  function NotAvailable(name: string): (w: string)
  {
    "Port " + name + " not available."
  }

  /** The connection that will be opened, and the warning written on the way, if any. */
  datatype Choice = Choice(conn: Connection, warning: Option<string>)

  /**
    * With `--port`, the first entry with exactly that name, without a
    * warning; when no entry has it, a warning naming the port and the first
    * entry. Without `--port`, the first entry. `first()` of an empty list is
    * undefined behaviour, so the list must not be empty.
    */
  function SelectPort(conns: seq<Connection>, port: Option<string>): (c: Choice)
    requires |conns| > 0
    ensures port.None? ==> c == Choice(conns[0], None)
    ensures port.Some? ==>
              (c.warning == None <==> exists i | 0 <= i < |conns| :: conns[i].name == port.value)
    ensures port.Some? && c.warning == None ==>
              exists i | 0 <= i < |conns| ::
                c.conn == conns[i] && conns[i].name == port.value
                && forall j | 0 <= j < i :: conns[j].name != port.value
    ensures port.Some? && c.warning != None ==> c == Choice(conns[0], Some(NotAvailable(port.value)))
  {
    match port
    case None => Choice(conns[0], None)
    case Some(name) =>
      var i := FindByName(conns, name);
      if i < |conns| then Choice(conns[i], None) else Choice(conns[0], Some(NotAvailable(name)))
  }

  /** Looking in a list whose prefix already holds a match finds the same position as looking in the prefix. */
  lemma {:induction false} FindInPrefix(s: seq<Connection>, n: nat, name: string)
    requires n <= |s| && FindByName(s[..n], name) < n
    ensures FindByName(s, name) == FindByName(s[..n], name)
  {
    var r := FindByName(s[..n], name);
    assert s[r] == s[..n][r];
  }

  /**
    * What the discarded result of `remove_if` costs. When some connection has
    * a name, selecting in the compacted list gives what selecting in the
    * named connections alone would give, for any requested port other than
    * the empty name: the first entry is the first named connection, and the
    * unnamed entries left behind the named ones never match. An empty
    * requested name, though, opens the first entry left behind, without a
    * warning, whenever some connection is unnamed.
    */
  lemma SelectAfterCompaction(orig: seq<Connection>, compacted: seq<Connection>, port: Option<string>)
    requires |orig| > 0 && |compacted| == |orig|
    requires compacted[..|Named(orig)|] == Named(orig)
    requires forall j | |Named(orig)| <= j < |compacted| :: compacted[j].name == []
    ensures Named(orig) != [] && (port.None? || port.value != []) ==>
              SelectPort(compacted, port) == SelectPort(Named(orig), port)
    ensures port == Some([]) && |Named(orig)| < |orig| ==>
              SelectPort(compacted, port) == Choice(compacted[|Named(orig)|], None)
  {
    var named := Named(orig);
    var n := |named|;
    NamedMembers(orig);
    if port.Some? && port.value != [] && n > 0 {
      var name := port.value;
      assert compacted[0] == named[0] by {
        assert compacted[..n][0] == compacted[0];
      }
      var f := FindByName(named, name);
      if f < n {
        FindInPrefix(compacted, n, name);
      } else {
        forall j | 0 <= j < |compacted|
          ensures compacted[j].name != name
        {
          if j < n {
            assert compacted[j] == compacted[..n][j];
          }
        }
      }
    } else if port.None? && n > 0 {
      assert compacted[..n][0] == compacted[0];
    } else if port == Some([]) && n < |orig| {
      forall j | 0 <= j < n
        ensures compacted[j].name != []
      {
        assert compacted[j] == compacted[..n][j] == named[j];
        assert named[j] in named;
      }
      assert compacted[n].name == [];
      assert FindByName(compacted, []) == n;
    }
  }

  /** Requesting "Synth C" among "Synth A" and "Synth B" warns and opens "Synth A". */
  lemma MissingPortExample()
    ensures SelectPort([Connection("Synth A", 1), Connection("Synth B", 2)], Some("Synth C"))
            == Choice(Connection("Synth A", 1), Some("Port Synth C not available."))
  {
    var conns := [Connection("Synth A", 1), Connection("Synth B", 2)];
    assert conns[0].name != "Synth C" by {
      assert conns[0].name[6] != "Synth C"[6];
    }
    assert conns[1].name != "Synth C" by {
      assert conns[1].name[6] != "Synth C"[6];
    }
    assert FindByName(conns, "Synth C") == 2;
    assert NotAvailable("Synth C") == "Port Synth C not available.";
  }

  /**
    * The selection block of `main`: compact the backend's list in place
    * (discarding the returned position), then select by the requested name
    * with the first entry as the fallback.
    */
  method ChoosePort(available: array<Connection>, port: Option<string>) returns (conn: Connection, warning: Option<string>)
    requires available.Length > 0
    modifies available
    ensures Choice(conn, warning) == SelectPort(available[..], port)
    ensures available[..|Named(old(available[..]))|] == Named(old(available[..]))
    ensures forall j | |Named(old(available[..]))| <= j < available.Length :: available[j].name == []
    ensures multiset(available[..]) == multiset(old(available[..]))
    ensures Named(old(available[..])) == [] ==> available[..] == old(available[..])
  {
    var _ := RemoveEmptyNames(available);
    var choice := SelectPort(available[..], port);
    conn, warning := choice.conn, choice.warning;
  }

  /**
    * The one case the compaction does not cover: an empty requested name.
    * Compacting "Synth A", an unnamed connection and "Synth B" swaps the
    * unnamed one to the end, where the empty name finds it: it is opened
    * without a warning, where the named entries alone would warn.
    */
  method EmptyPortNameExample() returns (conn: Connection, warning: Option<string>)
    ensures conn == Connection("", 2) && warning == None
  {
    var a := new Connection[] [Connection("Synth A", 1), Connection("", 2), Connection("Synth B", 3)];
    ghost var orig := a[..];
    assert Named(orig) == [Connection("Synth A", 1), Connection("Synth B", 3)] by {
      var one, two := orig[..1], orig[..2];
      assert one[..0] == [] && two[..1] == one && orig[..2] == two;
      assert Named(one) == [Connection("Synth A", 1)];
      assert Named(two) == [Connection("Synth A", 1)];
    }
    conn, warning := ChoosePort(a, Some(""));
    assert a[..2] == [Connection("Synth A", 1), Connection("Synth B", 3)];
    assert a[2] == Connection("", 2) by {
      assert a[2] in multiset(a[..]);
      assert a[2] in multiset(orig);
      assert a[2].name == [];
    }
    assert a[0].name != [] && a[1].name != [];
    assert FindByName(a[..], []) == 2;
  }
}
